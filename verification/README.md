# Verified model of a Modbus simulator and collector

This project models, in Dafny, the Modbus slaves of the `modbus-simulator` repository (a TCP
server and two serial servers), the CSV row writer that feeds them, and the collector that polls
them, and proves what a master, a noisy line, concurrent sessions and the collected data can rely
on. `dafny verify dfyconfig.toml` checks everything.

## Layout

| file | contents |
|---|---|
| `Bytes.dfy`, `Packing.dfy` | octets, big-endian words, coils packed into octets |
| `Crc16.dfy` | the Modbus CRC: the nested loop, linearity, inverse, residue |
| `Detection.dfy` | the bit-serial reference of the CRC, parity, bursts, which damage passes |
| `Engine.dfy`, `EngineLaws.dfy` | the TCP and serial request engines as functions on four tables of 65536 cells, and their laws |
| `TcpStream.dfy`, `RtuStream.dfy` | the two stream handlers as functions from received to sent octets; round trips; damaged lines |
| `Conformance.dfy`, `LineConformance.dfy` | requests, replies, frames, headers and damage on octets and numbers alone: check values, byte and bit order, codes, limits |
| `Wire.dfy`, `Loops.dfy` | a connection object; the copy loops between tables and octets |
| `TcpServer.dfy`, `RtuServer.dfy` | the servers as classes over arrays, proved against the functions above |
| `Concurrency.dfy`, `Sessions.dfy` | sessions and the updater stepping one register at a time under a read/write lock; linearizability |
| `Floats.dfy`, `Codec.dfy`, `RowWriter.dfy`, `EndToEnd.dfy` | calibration, register encodings, the CSV row writer, CSV value to collected value |
| `Cache.dfy`, `Keys.dfy` | the lazy TTL cache; the keys under which readings are cached |
| `Dedup.dfy`, `Records.dfy` | the handler that suppresses unchanged readings; which record stands for a reading when keys are shared |
| `Storage.dfy`, `Pipeline.dfy` | the bounded queue with its drain goroutine; suppression and queue together |
| `Devices.dfy` | grouping rows into devices |
| `Options.dfy` | the value that may be missing |

Octets and words are bounded natural numbers; `bv8` and `bv16` appear only inside the checksum
and the coil packing. Input and output of a connection are octet sequences, clocks are parameters,
`float64` arithmetic is exact over `real` with NaN and the infinities kept, and a `float32` is its
32-bit pattern (the conversions to and from `float64` are parameters).

Definitions that the other laws only use by name are fixed independently, on octets, numbers and
literal values: `Conformance.TcpOnOctets`, `Conformance.RtuOnOctets` and the members whose names end
in `OnOctets`, `OnNumbers` and `OnText`.

Seven findings shaped the statements:

- `handleRTUPDU` does not check the payload length of a 0x0F request. A payload shorter than the
  quantity makes it index past the slice, which is a Go panic. The model keeps that as an outcome,
  the laws say exactly when it happens (`EngineLaws.RtuOutcome`, `RtuStream.RtuRoundTrip`), and a
  frame that does it is given (`RtuStream.ShortWriteCrashes`).
- The two engines therefore agree on a framed request exactly when it is not a 0x0F request whose
  octet count differs from the one its quantity needs (`EngineLaws.EnginesAgree`,
  `EngineLaws.LooseCoilWrites`).
- The TTL cache equals its history exactly when the ttl never grows; `SetTTL(0)` means one hour
  and can be such a growth (`Cache.RefinesExactly`).
- Damage on a serial line is without effect exactly when the handler reads what arrives as whole
  frames that each fail the check or are for another slave (`RtuStream.ContainedExactly`). A burst
  of up to 16 bits that keeps the kind of the function code and the octet count always is.
- The cache key leaves out a point's address. Every reading gets a record of its own point exactly
  when no two points of the configuration share a key (`Records.OwnRecordsExactly`); two points with
  the same device, name, register type and server always do, and then a reading is lost
  (`Records.SameNameTwice`). Different names are told apart exactly when neither device nor point
  name contains the separator and no segment of the server name that a separator ends is a register
  type (`Keys.OwnKeyExactly`).
- A suppressed reading is compared with the last value stored exactly as long as no two collectors
  share a key (`Records.ComparedExactly`).
- `Run` closes the storage five seconds after it is told to stop, collectors still running or not.
  The program panics exactly when one of them sends afterwards (`Storage.CrashExactly`).

## Model

| member | source | states |
|---|---|---|
| Crc16.Crc16Modbus | cmd/mocktty/main.go:235-248 | the nested loop computes the octet-at-a-time register, for any message |
| Crc16.ShiftLinear | cmd/mocktty/main.go:239-245 | one turn of the loop is linear over exclusive or |
| Crc16.ShiftUnshift | cmd/mocktty/main.go:239-245 | the turn is onto: every register has a predecessor, given explicitly |
| Crc16.UnshiftShift | cmd/mocktty/main.go:239-245 | the same predecessor undoes the turn |
| Crc16.ShiftInjective | cmd/mocktty/main.go:239-245 | two registers with the same successor are equal |
| Crc16.FoldLinear | cmd/mocktty/main.go:235-248 | the register of the exclusive or of two equally long messages, from the exclusive or of two starting registers, is the exclusive or of the registers |
| Crc16.CrcAffine | cmd/mocktty/main.go:235-248 | crc(a xor b) = crc(a) xor crc(b) xor crc(zeros) for equal lengths |
| Crc16.Residue | cmd/mocktty/main.go:282-284 | the register over data and two more octets is zero exactly when the receiver's comparison succeeds, that is, when those octets are the little-endian checksum of the data |
| Crc16.TailRoundTrip | cmd/mocktty/main.go:317-319 | the two checksum octets sent decode to the checksum |
| Detection.BitSerial | cmd/mocktty/main.go:235-248 | the program's register equals a shift register fed one bit at a time, low bit of each octet first |
| Detection.RegisterParity | cmd/mocktty/main.go:235-248 | the parity of the register is the parity of all message bits |
| Detection.FrameParity | cmd/mocktty/main.go:305-309 | a frame that passes the check has an even number of set bits |
| Detection.DamagePasses | cmd/mocktty/main.go:305-309 | a damaged good frame still passes exactly when the damage alone has register zero |
| Detection.OddDamageFound | cmd/mocktty/main.go:235-248 | any odd number of flipped bits gives a register other than zero |
| Detection.BurstDamageFound | cmd/mocktty/main.go:235-248 | any damage confined to 16 consecutive bits gives a register other than zero, at any place in a message of any length |
| Detection.SeventeenBitsEscape | cmd/mocktty/main.go:235-248 | 16 is the most: a 17-bit burst with register zero |
| Packing.PackBit | internal/modbus/server.go:210-221 | bit i of the packed octets is coil i, and the padding is zero |
| Bytes.BitInNumbers | internal/modbus/server.go:210-221 | bit j of an octet, as the program tests it with shifts, is the binary digit of weight 2^j of its number |
| Conformance.TcpOnOctets | internal/modbus/server.go:136-368 | every PDU on its octets alone: exception 1, 3 or 2 by function, shape and range; else addresses, quantities and registers high octet first, coils low bit first, the tables read or written, the reply |
| Conformance.RtuOnOctets | cmd/mocktty/main.go:91-232 | the same for the serial handler on every PDU that the stream reader can hand over: exception 2 for whatever is refused, a panic for function 15 with too few octets |
| LineConformance.CheckValue | cmd/mocktty/main.go:235-248 | the octets 02 07 have checksum 0x1241, sent as 41 12 |
| LineConformance.ReadTenFrame | cmd/mocktty/main.go:305-321 | the frame 01 03 00 00 00 0A C5 CD |
| LineConformance.FrameOnOctets | cmd/mocktty/main.go:314-321 | a frame is the address, the PDU, and the checksum of both, low octet first, in numbers |
| LineConformance.LengthsOnOctets | cmd/mocktty/main.go:260-308 | any other function code than the eight ends the connection; a request short of its eight, or nine and its payload, octets waits |
| LineConformance.AddressOnOctets | cmd/mocktty/main.go:285-321 | a slave answers its own address, every address if its id is zero, and is silent to others, for every request and whatever follows |
| LineConformance.BurstOnOctets | cmd/mocktty/main.go:257-323 | flip any bits within 16 consecutive ones, low bit of each octet first, with function code and octet count intact: the frame is as if it had not been sent |
| LineConformance.OnesCount | cmd/mocktty/main.go:235-248 | the weight in the parity laws is the number of set bits |
| LineConformance.AduOnOctets | internal/modbus/server.go:92-134 | the seven header octets by position: length high octet first, reply with the same transaction and unit, protocol zero and its own length; a length of 0 or 1 ignored; a short ADU unanswered |
| Packing.UnpackPack | internal/modbus/server.go:303-308 | unpacking what was packed gives the coils back |
| Packing.PackUnpack | internal/modbus/server.go:210-221 | packing what was unpacked clears exactly the padding bits |
| EngineLaws.TcpAccepts | internal/modbus/server.go:136-368 | a request is answered normally exactly when the protocol allows it; otherwise the exception code names the unsupported function, the malformed value or the address range |
| EngineLaws.TcpLawful | internal/modbus/server.go:136-342 | for every PDU: an exception changes nothing; a read changes nothing and returns the addressed cells; a write echoes the request and changes exactly the addressed cells to what was asked; replies are 2 to 253 octets |
| EngineLaws.RtuLawful | cmd/mocktty/main.go:91-232 | the same for every PDU the serial engine replies to |
| EngineLaws.LastWriter | internal/modbus/server.go:248-342 | the last request of a run that was answered and writes a given cell, if there is one |
| EngineLaws.TcpRun | internal/modbus/server.go:136-342 | over any run of PDUs every coil and register holds what the last answered write to it asked for, or its old value; the input tables never change; every reply is 2 to 253 octets |
| EngineLaws.CoilsRoundTrip | internal/modbus/server.go:196-222 | 0x0F then 0x01 on the same range returns the payload with the padding cleared |
| EngineLaws.CoilsWriteBack | internal/modbus/server.go:281-311 | writing back what 0x01 returned leaves every table unchanged |
| EngineLaws.RegistersRoundTrip | internal/modbus/server.go:313-342 | 0x10 then 0x03 on the same range returns the payload |
| EngineLaws.CoilsAsSingles | internal/modbus/server.go:248-311 | a 0x0F request leaves the tables that one 0x05 request per coil leaves |
| EngineLaws.WordsAsSingles | internal/modbus/server.go:266-342 | a 0x10 request leaves the tables that one 0x06 request per register leaves |
| EngineLaws.CoilWritesJoin | internal/modbus/server.go:281-311 | two adjacent coil writes equal one write of the joined coils, while it fits |
| EngineLaws.WordWritesJoin | internal/modbus/server.go:313-342 | two adjacent register writes equal one write of the joined payloads, while it fits |
| EngineLaws.RtuOutcome | cmd/mocktty/main.go:127-136 | the serial handler never returns an error on a PDU that the stream reader can produce, changes nothing when it returns one, and panics exactly on an otherwise acceptable 0x0F request with too few octets |
| EngineLaws.LooseCoilWrites | cmd/mocktty/main.go:127-136 | what the two engines do with a 0x0F request of the wrong octet count: TCP refuses it, serial stores the coils it has octets for and panics if it ran out |
| EngineLaws.LooseCoilWritesExist | cmd/mocktty/main.go:208-214 | requests of both kinds that the stream reader can produce |
| EngineLaws.EnginesAgree | cmd/mocktty/main.go:151-232 | on those PDUs both engines change the tables alike and reply alike, up to the exception code, exactly when the request is not a 0x0F request with the wrong octet count; the code differs only where TCP reports a bad value |
| TcpStream.ParseEncoded | internal/modbus/server.go:96-131 | encoded ADUs parse back to themselves |
| TcpStream.TcpSession | internal/modbus/server.go:92-134 | any list of requests followed by anything: requests with a PDU are answered once, in order, with their transaction and unit, protocol zero and the right length; the rest is served from the resulting tables |
| TcpStream.TcpRoundTrip | internal/modbus/server.go:92-134 | the output parses back to exactly the replies of the request handler |
| TcpStream.TcpSplit | internal/modbus/server.go:92-134 | serving whole ADUs and then the rest equals serving both at once |
| RtuStream.FrameParts | cmd/mocktty/main.go:305-321 | a frame carries its address and PDU and passes the check |
| RtuStream.RtuRun | cmd/mocktty/main.go:151-232 | the law of whole runs for the serial engine, over any requests that it survives |
| RtuStream.RtuSession | cmd/mocktty/main.go:257-323 | any list of well-formed requests followed by anything: those for this slave are answered in order and the rest is served from the resulting tables |
| RtuStream.RtuRoundTrip | cmd/mocktty/main.go:257-323 | the handler gets through a list of well-formed requests exactly when none it hears is a short coil write; output and tables are those of the PDUs in order, up to the first such write, in the middle of which it ends |
| RtuStream.ShortWriteCrashes | cmd/mocktty/main.go:127-136 | a frame that the handler reads, checks and panics on |
| RtuStream.ContainedExactly | cmd/mocktty/main.go:257-323 | octets on the line leave the tables, the output and everything later as if they had not been sent, whatever follows, exactly when they are whole frames that each fail the check or are for another slave |
| RtuStream.DamagedIsFound | cmd/mocktty/main.go:262-301 | a damaged frame is delimited as before exactly when the function code stays of its kind and a long frame keeps its octet count |
| RtuStream.IntactBoundaries | cmd/mocktty/main.go:262-301 | in particular when the function and octet count octets are untouched |
| RtuStream.DamageContained | cmd/mocktty/main.go:284-285 | a frame damaged with its boundaries kept is as if it had not been sent, whatever follows, exactly when the damage has nonzero register or the address that arrives is not heard |
| RtuStream.BurstContained | cmd/mocktty/main.go:257-323 | any such damage within 16 consecutive bits is contained |
| RtuStream.OddContained | cmd/mocktty/main.go:257-323 | any such damage with an odd number of flipped bits is contained |
| RtuStream.FunctionDamageSpills | cmd/mocktty/main.go:298-301 | one bit that is not contained: flipping the high bit of the function code ends the connection, whatever follows |
| RtuStream.NoisyLine | cmd/mocktty/main.go:257-323 | a whole session of clean frames and damaged ones that are skipped equals the session of the clean ones |
| Wire.Conn.ReadFull | cmd/mocktty/main.go:260-278 | reads exactly n octets or uses up a short input |
| Loops.PackedBits | internal/modbus/server.go:210-221 | the packing loop of the bit reads |
| Loops.BigEndianWords | internal/modbus/server.go:241-244 | the encoding loop of the register reads |
| Loops.StoreBits | cmd/mocktty/main.go:131-134 | the coil storing loop, stopping where the payload ends |
| Loops.StoreWords | cmd/mocktty/main.go:143-146 | the register storing loop |
| RtuServer.RegisterStore.constructor | cmd/mocktty/main.go:76-83 | four cleared tables of 65536 cells |
| RtuServer.RegisterStore.ReadBits | cmd/mocktty/main.go:91-101 | the packed coils of a valid range, or an error |
| RtuServer.RegisterStore.ReadRegs | cmd/mocktty/main.go:103-112 | the register octets of a valid range, or an error |
| RtuServer.RegisterStore.WriteSingleCoil | cmd/mocktty/main.go:114-119 | sets one coil for the two legal values |
| RtuServer.RegisterStore.WriteSingleReg | cmd/mocktty/main.go:121-125 | sets one register |
| RtuServer.RegisterStore.WriteMultipleCoils | cmd/mocktty/main.go:127-136 | stores the coils, refuses, or panics after the coils it had octets for |
| RtuServer.RegisterStore.WriteMultipleRegs | cmd/mocktty/main.go:138-148 | stores the registers or refuses |
| RtuServer.RegisterStore.HandlePdu | cmd/mocktty/main.go:151-230 | the request handler in place: outcome and tables are the serial engine's |
| RtuServer.ReadFrame | cmd/mocktty/main.go:260-308 | the reads of one frame: boundaries from function code and byte count, every short input |
| RtuServer.RegisterStore.HandleStream | cmd/mocktty/main.go:257-323 | the stream loop sends, stores and ends as the stream function says, and terminates |
| RtuServer.RegisterStore.ServeSerial | cmd/server/main.go:587-626 | the second stream loop equals the first with slave filter zero |
| TcpServer.Server.constructor | internal/modbus/server.go:51-59 | four cleared tables of 65536 cells |
| TcpServer.Server.ReadBits | internal/modbus/server.go:196-222 | each check in order, then the packed coils |
| TcpServer.Server.ReadRegisters | internal/modbus/server.go:224-246 | each check in order, then the register octets |
| TcpServer.Server.WriteSingleCoil | internal/modbus/server.go:248-264 | checks, effect and echo of 0x05 |
| TcpServer.Server.WriteSingleRegister | internal/modbus/server.go:266-279 | checks, effect and echo of 0x06 |
| TcpServer.Server.WriteMultipleCoils | internal/modbus/server.go:281-311 | checks, effect and echo of 0x0F |
| TcpServer.Server.WriteMultipleRegisters | internal/modbus/server.go:313-342 | checks, effect and echo of 0x10 |
| TcpServer.Server.HandlePdu | internal/modbus/server.go:136-194 | the request handler in place: reply and tables are the TCP engine's |
| TcpServer.Server.HandleConnection | internal/modbus/server.go:92-134 | the connection loop with its reused header sends and stores as the stream function says, and terminates |
| TcpServer.Server.SetHoldingRegister | internal/modbus/server.go:382-390 | sets that register and nothing else |
| TcpServer.Server.SetInputRegister | internal/modbus/server.go:393-401 | sets that register and nothing else |
| TcpServer.Server.SetCoil | internal/modbus/server.go:404-412 | sets that coil and nothing else |
| TcpServer.Server.SetDiscreteInput | internal/modbus/server.go:415-423 | sets that input and nothing else |
| TcpServer.Server.SetHoldingFloat32 | internal/modbus/server.go:426-436 | both words, high first, or neither when the pair does not fit |
| TcpServer.Server.HoldingFloat32 | internal/modbus/server.go:439-447 | the pattern whose words are in the two registers |
| TcpServer.Server.SetInputFloat32 | internal/modbus/server.go:450-460 | both words, high first, or neither when the pair does not fit |
| TcpServer.Server.InputFloat32 | internal/modbus/server.go:463-471 | the pattern whose words are in the two registers |
| Concurrency.AtomicMeaning | cmd/mocktty/main.go:151-230 | the atomic meaning used by the step system is that of the two request handlers |
| Concurrency.AdvanceInv | cmd/mocktty/main.go:151-230 | every step of every thread, down to one register access or lock operation, keeps the invariant that ties memory, locks, partial reads and writes, and history |
| Concurrency.RunInv | cmd/mocktty/main.go:326-341 | so does every interleaving of calls and steps of any number of threads |
| Concurrency.Linearizable | cmd/mocktty/main.go:151-230 | in every interleaving the logged operations, one whole request at a time, give the same replies and, with no writer active, the same memory; the log holds the operations of the threads and nothing else, each finished one once and between its call and its return; the operations of a thread are those the run called on it, in order |
| Concurrency.RealTime | cmd/mocktty/main.go:151-230 | a request that returned before another was called took effect first |
| Concurrency.EffectUnderLock | cmd/mocktty/main.go:154-206 | an operation takes effect in a step of its own thread while that thread holds its lock |
| Concurrency.Exclusion | cmd/mocktty/main.go:189-220 | never a writer with a reader or another writer; no thread waits for the write lock while holding the read lock |
| Concurrency.Progress | cmd/mocktty/main.go:154-220 | while an operation is unfinished some thread can step, with a writer announced as well |
| Concurrency.StepsAreSmall | cmd/mocktty/main.go:91-148 | a step writes at most one cell, and only under the write lock, and reads at most one more |
| Concurrency.ReadersOverlap | cmd/mocktty/main.go:154-188 | any two serial requests can hold the read lock at the same time |
| Concurrency.WritersComeFirst | cmd/mocktty/main.go:189-220 | a writer that waits or holds the lock lets no new reader in |
| Concurrency.SerialReturns | cmd/mocktty/main.go:154-220 | the serial handler returns by releasing a read lock, also after it gave it up for the write lock |
| Concurrency.AllFinish | cmd/mocktty/main.go:151-230 | without new calls every schedule ends within a bound given by the work left |
| Concurrency.CounterValue | cmd/mocktty/main.go:326-341 | if no request writes it, the counter is its seed plus the ticks, modulo 65536 |
| Concurrency.NoTickLost | cmd/mocktty/main.go:326-341 | in every interleaving of one updater and requests that do not write the counter, that value is the seed plus every tick called, less the one that has not taken effect yet |
| Sessions.ParallelIsSerial | cmd/mocktty/main.go:251-323 | any interleaving of serial sessions equals one line that carries the requests in log order: same response frames, same tables |
| Sessions.ParallelIsOneByOne | internal/modbus/server.go:92-134 | any interleaving of TCP sessions equals one connection that carries the ADUs of the requests in log order: same reply ADUs, same tables |
| Floats.RoundIsNearest | internal/servermgr/manager.go:185-196 | rounding gives a nearest integer, ties away from zero |
| Codec.ReorderInvolution | internal/collector/client.go:323-341 | for every order string reordering twice is the identity |
| Codec.ReorderPermutes | internal/collector/client.go:323-341 | for every order string reordering moves each octet to the place of its partner |
| Codec.PatternRoundTrip | internal/collector/client.go:287-315 | a 32-bit pattern stored high word first is decoded as itself exactly by the orders that leave its octets in place, always by ABCD |
| Codec.SignedRoundTrip | internal/collector/client.go:282-314 | the signed readings undo the two's complement truncation |
| Codec.IntegersDecode | internal/collector/client.go:269-341 | every integer of the four integer types, its octets sent in any byte order, is decoded under that order as itself and then calibrated |
| Codec.PatternsDecode | internal/collector/client.go:287-341 | so is every float32 pattern |
| Codec.DecodeOnOctets | internal/collector/client.go:255-341 | the decoded number on the octets alone, for every data type and byte order, with both errors |
| Codec.CalibrateNumber | internal/collector/client.go:255-286 | a finite number is de-calibrated by offset and scale, zero counting as one |
| Codec.CalibrateSpecial | internal/collector/client.go:255-286 | NaN and the infinities through de-calibration |
| Codec.WordsOnNumbers | internal/modbus/server.go:426-447 | the two registers of a 32-bit value, high half first, in numbers |
| Codec.QuantitySuffices | internal/collector/client.go:206-225 | the number of registers asked for is just enough for the data type: fewer are too short, as many are not |
| Codec.CalibrationError | internal/collector/client.go:263 | de-calibrating a rounded calibrated value is off by at most 1/(2 abs(scale)) |
| RowWriter.SpecialsRejected | internal/servermgr/manager.go:160-196 | NaN and the infinities never reach a numeric register |
| RowWriter.PointOnNumbers | internal/servermgr/manager.go:97-196 | what a point writes, by its calibrated value v: uint16, also for no data type, exactly if -0.5 < v < 65535.5, int16 exactly if -32768.5 < v < 32767.5, the nearest integer; float32 if both registers exist; bits if positive |
| RowWriter.PairOnNumbers | internal/servermgr/manager.go:160-178 | the pair of registers is the 32-bit value, its high half at the lower address |
| RowWriter.PointsInOrder | internal/servermgr/manager.go:83-97 | points are taken device by device and in order |
| RowWriter.LastWordDecides | internal/servermgr/manager.go:83-123 | the point after which no other covers a register gives it its value |
| RowWriter.LastBitDecides | internal/servermgr/manager.go:83-123 | the same for coils and discrete inputs |
| RowWriter.SetRegisterWord | internal/servermgr/manager.go:148-157 | sets one word of a holding or input register, refuses other register types |
| RowWriter.SetRegisterFloat32 | internal/servermgr/manager.go:160-178 | both words or neither |
| RowWriter.WriteNumericRegister | internal/servermgr/manager.go:126-145 | the write of the data type, or none when the value is rejected |
| RowWriter.ApplyRow | internal/servermgr/manager.go:83-123 | after a row every cell holds what the last accepted point that covers it says, or its old value |
| EndToEnd.CalibrationEndToEnd | internal/servermgr/manager.go:97-139 | an accepted uint16 or int16 point, last writer of its register, read by 0x03 or 0x04 and decoded, is within 1/(2 abs(scale)) of the CSV value, scale zero meaning one |
| EndToEnd.Float32EndToEnd | internal/collector/client.go:205-225 | a float32 point is read back as the number its octets are in the byte order asked for: the same pattern for ABCD and every order that leaves its octets in place |
| EndToEnd.BitEndToEnd | internal/servermgr/manager.go:116-119 | a coil or discrete point is collected as set exactly when its calibrated value is positive, for every CSV value including NaN and the infinities |
| Cache.ValueCache.constructor | internal/utils/cache.go:38-43 | an empty cache with the effective ttl |
| Cache.ValueCache.GetValue | internal/utils/cache.go:46-58 | answers an entry within the ttl and deletes an expired one |
| Cache.ValueCache.SetValue | internal/utils/cache.go:61-65 | records value and time for the key |
| Cache.ValueCache.SetTtl | internal/utils/cache.go:68-75 | sets the effective ttl |
| Cache.CacheRefinesLog | internal/utils/cache.go:46-75 | while the clock does not go back and the ttl does not grow, every run of calls is answered as by a log that deletes nothing |
| Cache.HitExactly | internal/utils/cache.go:38-58 | a value is found for exactly the ttl asked for, 3600 seconds if that is not positive |
| Cache.HitsAreRecent | internal/utils/cache.go:46-75 | whatever the ttl does, every hit is a hit of the log with the same value |
| Cache.GrowthLosesHits | internal/utils/cache.go:53-56 | for any longer second ttl, whatever follows it, a run that is answered differently |
| Cache.RefinesExactly | internal/utils/cache.go:46-75 | for any schedule of ttls: every ordered run that sets them is answered as by the log exactly when none is longer than the one before |
| Dedup.FloatsEqualDrifts | internal/utils/cache.go:19-30 | near equality does not chain |
| Dedup.FloatsEqualOnNumbers | internal/utils/cache.go:19-30 | near means less than one part in 10^9 of the larger, or next to zero less than 10^-9; NaN is near nothing, an infinity only to itself |
| Keys.KeyOnText | internal/collector/manager.go:55 | the key as text, for each register type |
| Keys.OwnKeyExactly | internal/collector/manager.go:55 | no point with other names has the key of these names exactly when device and point name contain no separator and no segment of the server name that a separator ends is a register type |
| Keys.KeysApartExactly | internal/collector/config.go:283-292 | among configured points with such names, no two different points share a key exactly when no two have the same four names |
| Records.HiddenIsLost | internal/collector/manager.go:54-64 | of two points with one key the second one's equal reading is handled without an error and leaves no record of that point |
| Records.SameNameTwice | internal/collector/config.go:283-292 | two points of one device with the same name and register type at different addresses are such points |
| Records.OwnRecordsExactly | internal/collector/manager.go:51-64 | in every run over a configuration each reading handled without an error has a record of its own point, exactly when no two different points share a key |
| Dedup.NoDrift | internal/collector/manager.go:51-64 | in every interleaving of any callers, each reading handled without an error is stood for by a stored record of its key: itself, or a near value cached at most ttl before by a reading that was stored |
| Records.ComparedExactly | internal/collector/manager.go:56-58 | in every run over a configuration each suppressed reading is near the last value stored for its key, exactly when no two collectors share a key |
| Dedup.FailedStoreRetried | internal/collector/manager.go:59-61 | after a failed store the same value is not suppressed |
| Dedup.Handler.OnValue | internal/collector/manager.go:54-64 | one call of the handler: result, cache and stored values |
| Dedup.HandledIsRun | internal/collector/manager.go:54-64 | one undisturbed call is one of the interleavings |
| Dedup.HandledOnNumbers | internal/collector/manager.go:54-64 | a reading is suppressed exactly when its key has a near value cached within the ttl; else it is stored if the storage accepts it |
| Dedup.FarReadingsAreStored | internal/collector/manager.go:54-64 | a number off its cached value by a part in 10^9, or next to zero by 10^-9, is stored |
| Storage.QueueSize | internal/collector/storage.go:186-191 | the queue always has room for at least one value |
| Storage.RoomExactly | internal/collector/storage.go:186-191 | with no drain the queue takes exactly as many values as configured, 1000 if nothing is |
| Storage.Storage.Handle | internal/collector/storage.go:294-310 | queues the value at once or, when full, if the drain loop makes room within the wait; else refuses it; panics on the closed queue; keeping conservation |
| Storage.Storage.DrainOne | internal/collector/storage.go:163-173 | one value to every enabled sink, keeping conservation |
| Storage.Storage.Close | internal/collector/storage.go:193-205 | afterwards every enabled sink has received exactly the accepted values in order |
| Storage.QueueConserves | internal/collector/storage.go:160-173 | at every point of every interleaving, what a sink received, what is in flight for it and what is queued make up the accepted values, in order |
| Storage.NothingLeftBehind | internal/collector/storage.go:174-205 | when the drain goroutine has ended each enabled sink has received exactly the accepted values |
| Storage.SinksByName | internal/collector/storage.go:160-205 | the same for the JSON, CSV and database writers by name; one that is off got nothing |
| Storage.CrashExactly | internal/collector/manager.go:139-151 | a run of the storage ends in a panic exactly when a producer sends after the close |
| Pipeline.HandlersRun | internal/collector/manager.go:51-64 | what the handlers do in a run of handlers and queue together is one of their own interleavings |
| Pipeline.QueueRun | internal/collector/storage.go:160-205 | and what the queue does is one of its own |
| Pipeline.ReadingsKept | internal/collector/manager.go:51-64 | in every run of handlers and queue together, also one that ends in a panic, a reading handled without an error has in every enabled sink, or on its way there, a record of its key that is the reading or near it and cached within the ttl; in the sink once the drain goroutine has ended |
| Pipeline.OwnReadingsKept | internal/collector/manager.go:51-64 | when no two different points share a key, a record of the reading's own point |
| Storage.DrainProgress | internal/collector/storage.go:160-181 | the drain goroutine never waits while there is a value to write out, and after the close it can step until it ends |
| Pipeline.CallersProgress | internal/collector/manager.go:51-64 | unless the program has panicked every caller can take its next step |
| Devices.LoadRow | internal/collector/config.go:212-292 | the checks of one row in order, device columns only in a device's first row |
| Devices.RowChecks | internal/collector/config.go:212-281 | exactly which rows are refused, and the error of each in the order of the checks |
| Devices.RowFields | internal/collector/config.go:223-292 | field by field, with the defaults of scale, offset, slave id and poll interval |
| Devices.RowsOfOne | internal/collector/config.go:283-292 | the rows of a device are its rows and all of them |
| Devices.RowsInOrder | internal/collector/config.go:283-292 | and keep their order |
| Devices.Collect | internal/collector/config.go:295-303 | the devices in order; the check for a device without points never fires |
| Devices.LoadDevices | internal/collector/config.go:193-303 | succeeds exactly when every row is fine, with one device per id in first-seen order, each with exactly its rows as points; otherwise the error of the first bad row |
| Devices.IdsAreGroups | internal/collector/config.go:193-246 | the ids are distinct and no group is empty |
| Devices.IdsInOrder | internal/collector/config.go:244-246 | ids keep their first-seen order as rows are added |
| Devices.RowsConserved | internal/collector/config.go:283-292 | every row becomes exactly one point |

## Left out

- Sockets, serial ports, signals, tickers and sleeps: inputs and outputs are octet sequences, times are parameters. Failing writes to a connection are not modelled.
- Listener start and stop, wait groups, reconnects, retries and worker limits.
- The database layer, exporters, snapshots, logging, and the parsing of CSV, YAML and TOML text: rows are already split, names already trimmed and in lower case, byte orders in upper case.
- Rounding and overflow of `float64`, and which pattern a `float32` conversion picks: finite arithmetic is exact, the conversions are parameters.
- `applyRowLocked` and `nextRow` of cmd/server/main.go: the same point writes without the default scale and data type, and a row index that wraps.
- The setters of the simulators as threads of the step system: `SetHoldingRegister` and `SetCoil` take the steps of the TCP requests 0x06 and 0x05, and the holding float pair those of 0x10 and 0x03 with two registers; the input-table setters are only modelled sequentially.
- The separate lock acquisitions of the two words that `applyRowToServer` writes for a float32: the row writer is modelled without concurrent readers.
- The custom handler branch of the collector manager: it adds a call of the user's handler before the store and is otherwise the same.
- Requests that would panic are kept out of the step system of `Concurrency`; the sequential models include them.
- The lengths of the wait inside `Storage.Handle` and of the grace before the close: whether the drain loop makes room in time is a parameter in the class; in the step system a send succeeds or times out, and the close may come at any point.
- Write errors of the sinks, which the program ignores: a sink here is the sequence of values handed to its writer.
