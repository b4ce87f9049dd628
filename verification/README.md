# Verified model of a model-railway command station

The `basrcpd` daemon drives a model railway in software: it builds the signals for
Maerklin, mfx and NMRA DCC decoders bit by bit, keeps them in refresh pools, sends them
round robin, and runs the mfx protocols for finding decoders and reading their
configuration. `can-monitor` prints and reads Maerklin CAN frames. This project models the
hard part of both programs in Dafny and proves what the code is for.

Code that changes state step by step is modelled by classes and loops over arrays, each
method proved against a specification on values; what matters is then proved about whole
runs of these specifications. Encoders have a receiver as their partner, written from the
rules of the signal and not from the encoder, and the theorems say that nothing is lost on
the way.

| file | models |
|---|---|
| `MfxDiscovery.dfy` | the search for unregistered mfx decoders: reliable answers, lost answers, recovery, automatic registration of a whole set |
| `MfxCrc.dfy` | the 8-bit mfx checksum, bit serial and byte-wise, and what it detects |
| `MfxPacket.dfy`, `MfxSender.dfy`, `MfxLoco.dfy` | the field builder with its prefix-coded addresses, the decoder's reading of it, all packets the station sends, and what a locomotive's decoder makes of them |
| `MfxWave.dfy`, `MfxReceiver.dfy` | bit stuffing, biphase coding, syncs and the feedback clock in the SPI buffer, and the run-length receiver |
| `CvRead.dfy` | reading a configuration variable in blocks, with repetitions, and the collection of reply bytes |
| `PacketPool.dfy`, `Refresh.dfy` | the pools and the two-class refresh scheduler |
| `Accessory.dfy` | the accessory queue and its on/on/off/off sequencer |
| `DccStream.dfy`, `DccEncoder.dfy`, `DccLoco.dfy` | DCC bytes, packets and streams, and the locomotive encoder |
| `DccPulse.dfy`, `DccDecoder.dfy` | packing, SPI pulses, and the decoder at the other end of the track |
| `GlSpeed.dfy` | speed scaling, the MCS speed command, and the queue of locomotives to serve |
| `CanFrame.dfy` | the text form of CAN frames |
| `Crc16.dfy`, `Crc16Errors.dfy`, `ConfigStream.dfy` | the table-driven CRC, what it detects, and the reassembly of configuration streams |
| `Bits.dfy`, `BitStrings.dfy`, `BitBuffer.dfy`, `Words.dfy`, `Sequences.dfy`, `Options.dfy`, `Locos.dfy` | machine words as numbers and as bit strings, the shared packet buffer, optional values, the locomotive record |

## Findings

Some properties one would expect do not hold of the code. Each has its exact condition:

* A final search step that is acknowledged with ASK value 0 leads outside the steps 0..65;
  at all other steps it has no influence on the search (`MfxDiscovery.AskZeroEscapes`).
* A CV read can end silently, with neither full coverage nor a failure report, if and only
  if its last block starts at index 64 or above (`CvRead.EndsWithReport`, with the witness
  `CvRead.SilentExample`). Report bytes carry the index modulo 64.
* Every speed a client can send is scaled into the decoder's steps, without overflow, if and
  only if the client's maximum is positive and (2 * n_fs + 1) times it is an int
  (`GlSpeed.ScaleIsGood`). Nothing refuses other maxima (srcp-command.c:63): with 0 the speed
  is stored as it is, with a negative one a standstill becomes the highest step, and with
  50 million and 28 steps full speed wraps round to step -14 (`GlSpeed.BadMaxima`).
* Steps above 126 are sent as step 126, by both encoders (`Locos.SpeedCodeMeans`,
  `DccDecoder.RecordObeyed`, `MfxLoco.RecordObeyed`): steps 127 and 128 of a decoder that
  was announced with 128 are the same as 126.
* DCC records may have 32 functions (ddl.c:1412), but F29 to F31 are never sent, and with 14
  steps only F0 is (`DccDecoder.AllCovered`).
* mfx locomotives with addresses from 513 to 16379 are accepted (srcp-gl.c:117) and have no
  place in the refresh pool; updates stay inside it if and only if the address is at most
  512 (`PacketPool.WritesInside`, `PacketPool.MfxOutside`).
* The text form carries a CAN frame completely if and only if it is normalised: identifier
  bits and lengths beyond its kind, flags beyond four bits, data of remote requests and
  bytes behind the length are lost (`CanFrame.ReadsBack`).
* The text printed of an accepted uncompressed stream ends at its first zero byte
  (decoder-can-cs2.c:376); it is everything that was sent if and only if there is none
  (`ConfigStream.ExportedIs`, with the witness `ConfigStream.TextCut`).

The DCC encoder by itself would also turn step 29 of 29 into a stop
(`DccDecoder.SpeedObeyed`), but no record with 29 steps is admitted (ddl.c:1413-1421).

Where comments and code differ the model follows the code: a plain mfx packet can need 623
bytes and not 606 (ddl.c:753); CV reads make 3 attempts and not 10, in blocks of at most 4
bytes and not 8 (ddl_mfx.c:449-453); both immediate transmissions of a DCC locomotive send
the first buffer (ddl_nmra.c:609-612), while the pool gets both.

## Model

| member | source | states |
|---|---|---|
| `MfxDiscovery.MfxManager.Management` | basrcpd/src/ddl_mfx.c:612-625 | one call of the management loop: which bit it sets in the UID under construction, which query it sends (none while suspended), when it announces the station |
| `MfxDiscovery.MfxManager.DiscoveryReport` | basrcpd/src/ddl_mfx.c:680-703 | a partial report always; a final one, and completion, exactly at bit 32 with a non-zero ASK value |
| `MfxDiscovery.MfxManager.Acknowledge` | basrcpd/src/ddl_mfx.c:778-790 | the step after an answer: suspend when complete, else on to the next bit |
| `MfxDiscovery.MfxManager.Timeout` | basrcpd/src/ddl_mfx.c:809-824 | the step after silence: try the bit as 1, or start over when that failed too |
| `MfxDiscovery.MfxManager.AssignSid` | basrcpd/src/ddl_mfx.c:444-444 | a binding restarts a suspended search exactly when automatic search is on |
| `MfxDiscovery.MfxManager.Stop` | basrcpd/src/ddl_mfx.c:662-665 | the search is suspended whatever it was doing |
| `MfxDiscovery.FindsMinimum` | basrcpd/src/ddl_mfx.c:612-703 | with reliable answers a search from step 0 reports the smallest UID of any non-empty set of decoders, after exactly 33 + popcount queries, and nothing before |
| `MfxDiscovery.WithoutAuto` | basrcpd/src/ddl_mfx.c:426-445 | without automatic search the binding of the decoder found leaves the search suspended: nothing more is asked or reported; with it the next search starts |
| `MfxDiscovery.BindingLeavesSearch` | basrcpd/src/ddl_mfx.c:444-444 | a binding does not disturb a search under way |
| `MfxDiscovery.ReportsQuery` | basrcpd/src/ddl_mfx.c:680-824 | every answer, and every silence but that to the first query, is reported with the UID and the number of bits of the query that was sent; a decoder is reported after an answer to all 32 bits with a non-zero ASK value |
| `MfxDiscovery.SearchFrom` | basrcpd/src/ddl_mfx.c:612-824 | the same from any bit on: k + (ones among the k lowest bits) more queries |
| `MfxDiscovery.RegistersAll` | basrcpd/src/ddl_mfx.c:426-445 | with automatic search every decoder of any finite set is found exactly once, in ascending order, in a known number of queries; then the search idles at step 0 |
| `MfxDiscovery.NobodyTwice` | basrcpd/src/ddl_mfx.c:426-824 | with automatic search and any pattern of lost answers every UID reported is one of the decoders, none is reported twice and none is lost |
| `MfxDiscovery.RegistersAfterLosses` | basrcpd/src/ddl_mfx.c:426-824 | from any state that losses left: with reliable answers all open decoders are registered, one and then the others in ascending order, within 67 + 65 * (n - 1) queries |
| `MfxDiscovery.AscendingIsSorted` | basrcpd/src/ddl_mfx.c:426-445 | the order used there lists exactly the elements of the set, strictly ascending |
| `MfxDiscovery.LossyStep` | basrcpd/src/ddl_mfx.c:778-824 | whatever answer is lost: steps stay in 0..65, all bits of the UID from the tested position down are 0, the step grows or falls back to 0 or 1, and a final report names a decoder that exists |
| `MfxDiscovery.LossySafety` | basrcpd/src/ddl_mfx.c:778-824 | the same over every run |
| `MfxDiscovery.BackToBase` | basrcpd/src/ddl_mfx.c:778-824 | at most 65 queries separate two visits to step 0 or 1 |
| `MfxDiscovery.Recovers` | basrcpd/src/ddl_mfx.c:778-824 | once answers are reliable again, a search left anywhere by losses reports one existing decoder within 67 queries |
| `MfxDiscovery.AskZeroEscapes` | basrcpd/src/ddl_mfx.c:689-689 | an acknowledge leaves the steps 0..65 if and only if it carries ASK value 0 at step 64 or 65 |
| `MfxCrc.ClosedIsIntact` | basrcpd/src/ddl_mfx.c:161-174 | every packet closed by addCRCBits has residue zero over its whole length |
| `MfxCrc.RunIsByte` | basrcpd/src/ddl_mfx.c:161-174 | eight bit steps of the CRC are one byte step, for every register and byte |
| `MfxCrc.CheckStepIsByte` | basrcpd/src/ddl_mfx.c:627-637 | the step of checkMfxCRC on its 16-bit register is eight bit steps of addCRCBits |
| `MfxCrc.CheckMfxCrc` | basrcpd/src/ddl_mfx.c:627-637 | the check accepts exactly the replies whose last byte is the register over the others |
| `MfxCrc.BurstDetected` | basrcpd/src/ddl_mfx.c:161-174 | any change inside a window of eight bits of an intact packet is detected |
| `MfxCrc.OddErrorsDetected` | basrcpd/src/ddl_mfx.c:161-174 | any odd number of flipped bits is detected, wherever they are |
| `MfxCrc.RunParity` | basrcpd/src/ddl_mfx.c:161-174 | the register always carries the parity of the bits read |
| `MfxCrc.RunInjective` | basrcpd/src/ddl_mfx.c:161-174 | a run of the register is injective in its start value |
| `MfxCrc.ReplyByteError` | basrcpd/src/ddl_mfx.c:627-637 | a good reply with one byte changed, data or checksum, is never accepted |
| `MfxPacket.AddBits` | basrcpd/src/ddl_mfx.c:114-126 | the buffer holds what it held, followed by the field, highest bit first, and zeros behind |
| `MfxPacket.AddCrcBits` | basrcpd/src/ddl_mfx.c:162-174 | the buffer is closed with the checksum that makes the residue zero |
| `MfxPacket.AdrReadBack` | basrcpd/src/ddl_mfx.c:135-152 | the address code 10/110/1110/1111 is prefix-free and reads back every address below 16384, whatever follows |
| `MfxPacket.DriveReadBack` | basrcpd/src/ddl_mfx.c:259-269 | the short and the long speed form decode to the same speed |
| `MfxPacket.FuncsReadBack` | basrcpd/src/ddl_mfx.c:270-281 | the 4, 8 and 16 function forms are told apart and read back |
| `MfxPacket.PacketReadBack` | basrcpd/src/ddl_mfx.c:196-300 | every command of the station is read back by a decoder that checks the CRC |
| `MfxSender.PacketStream.AddAdr` | basrcpd/src/ddl_mfx.c:135-152 | the shortest of the four address forms is appended |
| `MfxSender.PacketStream.AddSpeed` | basrcpd/src/ddl_mfx.c:259-269 | the short speed form exactly when the low four bits are zero |
| `MfxSender.PacketStream.AddFuncs` | basrcpd/src/ddl_mfx.c:270-281 | the form with 4, 8 or 16 functions is appended; `MfxLoco.FunctionsAsRecorded` says which functions arrive by it |
| `MfxSender.SendUidAndRegCounter` | basrcpd/src/ddl_mfx.c:347-364 | the packet is the closed announcement of station UID and counter |
| `MfxSender.SendDekoderExist` | basrcpd/src/ddl_mfx.c:372-392 | the packet is the closed existence query |
| `MfxSender.SendSearchNewDecoder` | basrcpd/src/ddl_mfx.c:402-420 | the packet is the closed search query for the given UID bits |
| `MfxSender.SendAssignSid` | basrcpd/src/ddl_mfx.c:426-443 | the packet is the closed assignment of an address to a UID |
| `MfxSender.SendReadCv` | basrcpd/src/ddl_mfx.c:457-483 | the packet is the closed CV query with its length code; it has at most 50 bits |
| `MfxSender.SendWriteCv` | basrcpd/src/ddl_mfx.c:866-885 | the packet is the closed CV write |
| `MfxSender.SendLocoFx16To32` | basrcpd/src/ddl_mfx.c:196-209 | the packet is the closed single function command |
| `MfxSender.CompMfxLoco` | basrcpd/src/ddl_mfx.c:215-300 | flags taken, direction and speed corrected, the drive packet built, one packet for each changed function above F15, and exactly their change bits cleared |
| `MfxSender.LocoReadBack` | basrcpd/src/ddl_mfx.c:215-284 | the drive packet of any record with an address below 16384 is read back: direction, speed code and the functions of its width |
| `Locos.SpeedCodeMeans` | basrcpd/src/ddl_mfx.c:226-234 | the speed code says what the record asks for if and only if that is no step above 126; those are sent as step 126 |
| `MfxLoco.DriveObeyed` | basrcpd/src/ddl_mfx.c:219-284 | the drive packet sets the decoder's direction, motion and its lowest 4, 8 or 16 functions, and no other |
| `MfxLoco.FxObeyed` | basrcpd/src/ddl_mfx.c:289-299 | the function packets set exactly the changed functions from F16 on |
| `MfxLoco.RecordObeyed` | basrcpd/src/ddl_mfx.c:215-300 | after all packets of a command the decoder has the record's direction and functions (the changed ones from F16 on, the others as they were), and its speed if and only if that is no step above 126 |
| `MfxLoco.MovesAsRecorded` | basrcpd/src/ddl_mfx.c:219-269 | in the fields of the record: an emergency stop keeps the cached direction, any other command has the direction asked for, even ones and -1 being backward; speed 0 stops, 1 to 126 are the steps, more are step 126 |
| `MfxLoco.FunctionsAsRecorded` | basrcpd/src/ddl_mfx.c:270-299 | each of the first 16 functions that the locomotive has arrives as recorded, and so do those that fill up 4, 8 or 16; from F16 on exactly the changed ones, if there are more than 16 |
| `MfxLoco.KeptInStep` | basrcpd/src/ddl_mfx.c:289-299 | if only the changed functions differed before, all 32 agree afterwards |
| `MfxWave.SpiStream.AddHSync` | basrcpd/src/ddl.c:687-702 | half syncs continue from the last level, runs of 2, 1, 2 |
| `MfxWave.SpiStream.AddMfx` | basrcpd/src/ddl.c:712-728 | every bit starts with an edge, a 1 has one in its middle |
| `MfxWave.SpiStream.AddRdsSync` | basrcpd/src/ddl.c:736-746 | whatever level it starts from, the level afterwards is high |
| `MfxWave.SpiStream.AddPayload` | basrcpd/src/ddl.c:774-790 | the payload is stuffed after every eighth 1 and coded |
| `MfxWave.SpiStream.AddClock` | basrcpd/src/ddl.c:823-856 | the feedback clock: pulses at exactly the specified SPI bits and nowhere else |
| `MfxWave.ConvertMfxPacketToSpiStream` | basrcpd/src/ddl.c:762-866 | the filled buffer is the waveform of its packet type and its length an exact function of bits, stuffed zeros and type |
| `MfxWave.PeriodPulse` | basrcpd/src/ddl.c:823-833 | in each of the first 23 periods the clock pulse is the last 4 SPI bits |
| `MfxWave.HalfPeriodPulse` | basrcpd/src/ddl.c:847-855 | and in each half period after them |
| `MfxReceiver.Received` | basrcpd/src/ddl.c:687-790 | a run-length receiver recovers exactly the packet bits, whatever follows the closing sync |
| `MfxReceiver.WaveReceived` | basrcpd/src/ddl.c:762-866 | the same for every buffer of every packet type |
| `MfxReceiver.CommandReceived` | basrcpd/src/ddl.c:762-866 | from command to rail and back: bit packing, checksum, stuffing and biphase coding together lose nothing |
| `MfxReceiver.NoSyncInPayload` | basrcpd/src/ddl.c:712-728 | the sync signature, a single half bit between two full ones, never occurs in a payload |
| `MfxReceiver.StuffedLength` | basrcpd/src/ddl.c:774-790 | stuffing adds at most one bit in eight |
| `MfxReceiver.BufferFits` | basrcpd/src/ddl.c:1028-1028 | read packets (at most 50 bits) need at most 1541 bytes, others at most 999, of the 1600; a plain packet of 23 bits or more has at least 96 bytes |
| `MfxReceiver.RdsSyncRuns` | basrcpd/src/ddl.c:736-746 | a decoder measures 22 half syncs, or 23 from a low level, and the bits 0011; the level is high at the end |
| `MfxReceiver.AnswerWindows` | basrcpd/src/ddl.c:796-812 | behind them two quiet times of 128 bytes, the first low and the second high, with two half syncs between them and four at the end |
| `MfxReceiver.PlainEnd` | basrcpd/src/ddl.c:791-795 | a packet without an answer ends with five half syncs and eight quiet bytes |
| `MfxReceiver.PulseTimes` | basrcpd/src/ddl.c:817-855 | the pulses are 4 SPI bits long and end every 146 bits, from the 24th on every 73 |
| `MfxReceiver.PulsesSuffice` | basrcpd/src/ddl.c:823-855 | the clock of a read has exactly 23 pulses and two for each bit of the answer: start pattern 010, the bytes asked for, the checksum and four more |
| `CvRead.CvReader.Start` | basrcpd/src/ddl_mfx.c:894-910 | the job is remembered and its first query sent, refused or not tried without power |
| `CvRead.CvReader.ReadCv` | basrcpd/src/ddl_mfx.c:457-459 | a query is sent exactly when line and index are in range |
| `CvRead.CvReader.ReportValues` | basrcpd/src/ddl_mfx.c:755-762 | one report for each reply byte; `CvRead.ValuesAre` says which |
| `CvRead.ValuesAre` | basrcpd/src/ddl_mfx.c:755-762 | report k names the first index plus k and carries byte k of the reply |
| `CvRead.CvReader.Result` | basrcpd/src/ddl_mfx.c:744-773 | the reports of a block, and the job of the next one |
| `CvRead.CvReader.TimedOut` | basrcpd/src/ddl_mfx.c:830-838 | repeat below three attempts, else one failure report at the block |
| `CvRead.CvReader.Resume` | basrcpd/src/ddl_mfx.c:844-849 | the pending flag is consumed and the query of the current block repeated |
| `CvRead.ReadsInOrder` | basrcpd/src/ddl_mfx.c:744-838 | for every pattern of replies and timeouts: consecutive indices in order without gap or repeat, then full coverage, or one failure report at the failed block, or the silent end |
| `CvRead.ReportsAre` | basrcpd/src/ddl_mfx.c:744-838 | report by report over a whole read: byte k of those received is reported at the first index plus k, and one failure report at the next index follows if and only if the read was given up |
| `CvRead.ReadEnds` | basrcpd/src/ddl_mfx.c:830-838 | each block is tried at most three times, so a read ends within three answers a block |
| `CvRead.ThirdGivesUp` | basrcpd/src/ddl_mfx.c:830-838 | one or two timeouts of a block repeat its query, the third gives the read up |
| `CvRead.GivenUpAfterThree` | basrcpd/src/ddl_mfx.c:830-838 | and a read is given up only there: three timeouts in a row, the first of them at the first try of a block |
| `CvRead.QueryAsks` | basrcpd/src/ddl_mfx.c:457-483 | the decoder reads address, line, index and length code of the query, and 2 to the power of that code is the number of bytes the reader expects |
| `CvRead.TotalIs` | basrcpd/src/ddl_mfx.c:767-768 | a complete read delivers n bytes, one more when n mod 4 is 3 |
| `CvRead.EndsWithReport` | basrcpd/src/ddl_mfx.c:844-849 | a read is certain to end with coverage or a failure report if and only if its last block starts below index 64 |
| `CvRead.SilentExample` | basrcpd/src/ddl_mfx.c:844-849 | eight bytes from index 60 on: four are reported and then nothing more happens |
| `CvRead.ReportNamesIndex` | basrcpd/src/ddl_mfx.c:757-758 | the two report bytes carry the CV line, and the index modulo 64 |
| `CvRead.Seeker.Seek` | basrcpd/src/ddl.c:313-332 | a data byte is stored; the reader is woken exactly when all bytes are there and the CRC fits |
| `CvRead.AnyOrder` | basrcpd/src/ddl.c:313-332 | in any order and with repetitions, the bytes of a message are a complete reply exactly when each has been seen and its checksum is right, and then the reply is the one sent |
| `PacketPool.Pool.IsKnown` | basrcpd/src/ddl.c:432-435 | the search finds exactly the known addresses, with either loop bound of the source |
| `PacketPool.Pool.Update` | basrcpd/src/ddl.c:604-642 | the address is registered once, its packet replaced, everything else unchanged; all writes are in bounds |
| `PacketPool.Pigeonhole` | basrcpd/src/ddl.c:638-641 | distinct addresses of a range are at most as many as the range has |
| `PacketPool.WritesInside` | basrcpd/src/ddl.c:605-641 | all writes of an update are inside the arrays if and only if the address is one of the pool's |
| `PacketPool.MfxOutside` | basrcpd/src/ddl_mfx.c:283-284 | an mfx address the locomotive directory accepts and the pool has no room for |
| `PacketPool.PoolOverTime` | basrcpd/src/ddl.c:905-940 | over any updates: known addresses distinct, exactly the used ones, and never more than the range |
| `Refresh.RefreshInfo.Walk` | basrcpd/src/ddl.c:1178-1208 | send if eligible, advance to the next eligible entry or wrap |
| `Refresh.RefreshInfo.ShiftToEnabled` | basrcpd/src/ddl.c:1282-1291 | the shift loop ends, at the next enabled protocol in cyclic order |
| `Refresh.RefreshInfo.SendPackets` | basrcpd/src/ddl.c:1187-1191 | the packets of a locomotive and the new lastfunc; `Refresh.SecondSent` and `Refresh.RunAddressees` say which packets these are |
| `Refresh.RefreshInfo.RefreshLocoOne` | basrcpd/src/ddl.c:1171-1293 | one call: which locomotive is served with which packets, and the state after it |
| `Refresh.Refresher.RefreshLoco` | basrcpd/src/ddl.c:1307-1322 | fast and normal refresh alternate while there are recent locomotives |
| `Refresh.CycleOfCalls` | basrcpd/src/ddl.c:1171-1293 | the calls of a cycle, from anywhere in a pool, serve the eligible locomotives that remain and hand over to the next enabled protocol |
| `Refresh.CycleServesAll` | basrcpd/src/ddl.c:1171-1293 | the calls of a cycle over a pool serve every eligible locomotive exactly once, in pool order, in at most as many calls as the pool has entries |
| `Refresh.EligibleIs` | basrcpd/src/ddl.c:1192-1207 | that order lists exactly the eligible entries, strictly ascending |
| `Refresh.SameFx` | basrcpd/src/ddl.c:1188-1200 | during a Maerklin cycle every locomotive gets the same one of its function packets |
| `Refresh.Round` | basrcpd/src/ddl.c:1282-1291 | one round of calls leads from the start of a Maerklin cycle to that of the next, where the number of the function packet is one higher modulo 4 |
| `Refresh.AllFx` | basrcpd/src/ddl.c:1188-1201 | from the start of a Maerklin cycle on, every eligible locomotive is sent its drive packet with each of its four function packets within five rounds of calls |
| `Refresh.Closer` | basrcpd/src/ddl.c:1171-1293 | each call serves a given entry or strictly lowers a bound on the calls until it is served |
| `Refresh.OldIsServed` | basrcpd/src/ddl.c:1307-1322 | an old locomotive is served within twice the bound |
| `Refresh.RecentIsServed` | basrcpd/src/ddl.c:1307-1322 | a recent one likewise |
| `Refresh.NobodyStarves` | basrcpd/src/ddl.c:1307-1322 | every locomotive of an enabled protocol that keeps its class is served in every 2 * sum of max(1, N_p) calls |
| `Refresh.ServedOften` | basrcpd/src/ddl.c:1307-1322 | and k times in k times as many calls |
| `Refresh.AllFuncs` | basrcpd/src/ddl.c:1253-1263 | in every 2 * sum * (n_func - 16) calls the packets sent have each function from F16 on of an mfx locomotive that keeps its class, wherever lastfunc stood |
| `Refresh.RunAddressees` | basrcpd/src/ddl.c:1187-1265 | over any run the drive packets go exactly to the locomotives served, in order and one for each time, and the second packets likewise, to all but mfx locomotives of up to 16 functions |
| `Refresh.DriveSent` | basrcpd/src/ddl.c:1187-1247 | whoever is served in a run is sent his drive packet |
| `Refresh.SecondSent` | basrcpd/src/ddl.c:1188-1265 | and a function packet of Maerklin, the second buffer of DCC, or a function from F16 on of mfx |
| `Refresh.RunInRange` | basrcpd/src/ddl.c:1196-1265 | over any run Maerklin function packets are numbered -1 to 3, and mfx functions lie between F16 and the number the locomotive has |
| `Refresh.OneRefresh` | basrcpd/src/ddl.c:1307-1322 | one call sends the packets of the recent class, unless that was served last or has nobody to serve, with the function packet number of the class served |
| `Refresh.AtEnabled` | basrcpd/src/ddl.c:1725-1735 | after its first call a cycle is at an enabled protocol, as that bound assumes |
| `Accessory.GaQueue.Enqueue` | basrcpd/src/srcp-ga.c:42-85 | append, or refuse a wrong address or a full queue; one of fifty places stays free |
| `Accessory.GaQueue.IsEmpty` | basrcpd/src/srcp-ga.c:87-90 | true exactly when nothing is queued |
| `Accessory.GaQueue.Dequeue` | basrcpd/src/srcp-ga.c:107-117 | the oldest command leaves |
| `Accessory.Sequencer.Handle` | basrcpd/src/ddl.c:2099-2144 | one pass of the four-step machine with its fall-through cases and the range checks of both encoders |
| `Accessory.TelegramsAre` | basrcpd/src/ddl.c:2099-2144 | which telegrams a command comes to: on, on or on, on, off, off with its own protocol, address and port; nothing for an address or port out of range; only the off telegrams for another action than 0 or 1, if it is timed |
| `Accessory.PassKeepsPlan` | basrcpd/src/ddl.c:2099-2144 | a pass only moves telegrams from the plan to the trace |
| `Accessory.TraceIsFifo` | basrcpd/src/ddl.c:2099-2144 | for every interleaving of enqueues, pauses and passes: sent plus outstanding telegrams are the commands' telegrams in FIFO order |
| `Accessory.TraceFromStart` | basrcpd/src/ddl.c:2099-2144 | from start-up the trace is a prefix of on, on or on, on, off, off per command, and all of it when idle |
| `Accessory.NoOverlap` | basrcpd/src/ddl.c:2125-2143 | no command is taken up while a timed one still has to be switched off |
| `Accessory.OneAtATime` | basrcpd/src/ddl.c:2099-2144 | a pass sends one telegram at most, and none without power |
| `Accessory.StaysOn` | basrcpd/src/ddl.c:2125-2131 | a timed command that is on stays on, and the queue waits, over every run in which no pass with power finds the time over |
| `Accessory.SwitchesOff` | basrcpd/src/ddl.c:2125-2143 | then two passes with power send the two off telegrams and nothing else |
| `Accessory.Drains` | basrcpd/src/ddl.c:2099-2144 | with power on and times over, everything queued is sent in a known number of passes |
| `DccEncoder.CalcSingleByte` | basrcpd/src/ddl_nmra.c:123-136 | the lowest eight bits, highest first |
| `DccEncoder.XorTwoBytes` | basrcpd/src/ddl_nmra.c:208-220 | bitwise exclusive or |
| `DccEncoder.CalcBaselineSpeedByte` | basrcpd/src/ddl_nmra.c:146-152 | 01DCSSSS with C = FL |
| `DccEncoder.Calc28SpstSpeedByte` | basrcpd/src/ddl_nmra.c:155-169 | 01DCSSSS with C the lowest speed bit, speeds shifted past the four stop codes |
| `DccEncoder.Calc128SpstAdvOpBytes` | basrcpd/src/ddl_nmra.c:199-206 | 00111111 DSSSSSSS |
| `DccEncoder.CalcFunctionGroupOneByte` | basrcpd/src/ddl_nmra.c:172-181 | 100DDDDD in the order F0 F4 F3 F2 F1 |
| `DccEncoder.CalcFunctionGroupTwoByte` | basrcpd/src/ddl_nmra.c:184-197 | 1011 F8..F5 or 1010 F12..F9 |
| `DccEncoder.CalcAddressStream` | basrcpd/src/ddl_nmra.c:475-502 | preamble and address bytes of either form, and their exclusive or |
| `DccEncoder.CalcFunctionStream` | basrcpd/src/ddl_nmra.c:298-372 | two trains of well-formed packets, 35 ones apart, with the function groups the count asks for |
| `DccStream.ReceivePacket` | basrcpd/src/ddl_nmra.c:492-502 | an S-9.2 receiver takes exactly the bytes from a packet, whatever stands around it |
| `DccStream.TrainReceived` | basrcpd/src/ddl_nmra.c:298-372 | a whole stream is received as exactly its packets, in order, behind and before any number of ones |
| `DccStream.CheckedIsZero` | basrcpd/src/ddl_nmra.c:581-592 | the exclusive or over every packet is zero |
| `DccLoco.SpeedStream` | basrcpd/src/ddl_nmra.c:561-593 | the speed packet for 14, 28 or 128 steps, with the short form for both stops |
| `DccLoco.StreamLengths` | basrcpd/src/ddl_nmra.c:100-103 | no stream of a locomotive has more than 244 bits, so packing never refuses one |
| `DccLoco.GapIs` | basrcpd/src/ddl_nmra.c:303-309 | between two packets of a stream stand exactly 50 ones, the 5 ms that decoders need |
| `DccLoco.CompNmraMultiFunc` | basrcpd/src/ddl_nmra.c:517-616 | flags taken; the pool entry carries exactly the two trains, or nothing is sent when address, direction or speed is out of range |
| `DccDecoder.AddressRead` | basrcpd/src/ddl_nmra.c:139-143 | both address forms are read back, so packets for different addresses differ |
| `DccDecoder.SpeedObeyed` | basrcpd/src/ddl_nmra.c:561-579 | a decoder takes direction and speed as meant, except step 29 of 29 steps, which it takes for a stop |
| `DccDecoder.GroupOneObeyed` | basrcpd/src/ddl_nmra.c:172-181 | exactly F0 to F4 are set |
| `DccDecoder.GroupTwoObeyed` | basrcpd/src/ddl_nmra.c:184-197 | exactly F5 to F8, or F9 to F12 |
| `DccDecoder.ExpansionObeyed` | basrcpd/src/ddl_nmra.c:340-368 | exactly F13 to F20, or F21 to F28 |
| `DccDecoder.OrderObeyed` | basrcpd/src/ddl_nmra.c:560-608 | after both streams the decoder has direction and speed code as sent and the functions the count covers (5, 9, 13, 21 or 29; F0 alone with 14 steps), and its other functions unchanged |
| `DccDecoder.RecordObeyed` | basrcpd/src/ddl_nmra.c:531-608 | the same from the record: it has the speed the record asks for if and only if that is an emergency stop, or no step above 126 and not step 29 of 29 |
| `DccDecoder.SentIff` | basrcpd/src/ddl_nmra.c:533-558 | which records are sent, in their fields: an address of its range, and for an emergency stop a cached direction of 0 or 1, otherwise such a direction and a speed that is 0, at most n_fs, or any if n_fs is 126 or more |
| `DccDecoder.MovesAsRecorded` | basrcpd/src/ddl_nmra.c:533-579 | an emergency stop keeps the cached direction, any other command has the direction asked for; speed 0 stops, 1 to 126 are the steps, more are step 126 |
| `DccDecoder.FunctionsAsRecorded` | basrcpd/src/ddl_nmra.c:594-608 | each function that the record has, up to F28, arrives as recorded; with 14 steps F0 alone |
| `DccDecoder.AllCovered` | basrcpd/src/ddl_nmra.c:595-600 | every function of the record reaches the decoder if and only if it has at most 29, or one with 14 steps |
| `DccDecoder.OthersUntouched` | basrcpd/src/ddl_nmra.c:560-608 | no decoder with another address reacts |
| `DccDecoder.EntryReceived` | basrcpd/src/ddl.c:532-567 | the pulses of a pool entry bring exactly the intended packets to every receiver that S-9.2 allows |
| `DccDecoder.TrackObeyed` | basrcpd/src/ddl.c:532-567 | record, bit stream, packed buffer, SPI pulses, receiver and decoder composed |
| `DccPulse.TranslateBitstream2Packetstream` | basrcpd/src/ddl_nmra.c:95-113 | the buffer carries length and bits; more than 255 bits are refused |
| `DccPulse.LongFormat` | basrcpd/src/ddl.c:535-536 | behind a preamble of eight ones or more the format test sees 0xFF |
| `DccPulse.ConvertNmraPacketToSpiStream` | basrcpd/src/ddl.c:501-567 | either buffer format becomes exactly the pulses of its bits |
| `DccPulse.PulsesRead` | basrcpd/src/ddl.c:533-560 | reading FF00 and FFFF0000 pulses returns the bits |
| `DccPulse.WaveRead` | basrcpd/src/ddl.c:532-567 | a converted buffer reads back as its bits; its length is exact |
| `DccPulse.CarriedBits` | basrcpd/src/ddl.c:532-567 | a packed stream takes the long format, comes out as its bits and one more 1, and needs at most 1024 bytes |
| `DccPulse.ShortReceived` | basrcpd/src/ddl.c:501-530 | a short buffer brings exactly its bytes to a receiver its preamble suffices for |
| `GlSpeed.ScaleIsGood` | basrcpd/src/srcp-gl.c:56-78 | for every speed a client can send nothing overflows, the result is within 0..n_fs, and 0 exactly when the speed is not positive, if and only if the maximum is positive and (2 * n_fs + 1) times it is an int |
| `GlSpeed.AllFit` | basrcpd/src/srcp-gl.c:69-73 | for a positive maximum no intermediate value overflows, whatever the speed, if and only if (2 * n_fs + 1) times it is an int |
| `GlSpeed.MachineIs` | basrcpd/src/srcp-gl.c:69-75 | where nothing overflows the 32-bit computation is the scale that the other theorems speak of |
| `GlSpeed.SpeedRange` | basrcpd/src/srcp-gl.c:62-78 | the positive half of that: within 0..n_fs, and 0 exactly for non-positive speeds |
| `GlSpeed.BadMaxima` | basrcpd/src/srcp-gl.c:56-78 | what maxima of 0, -1 and 50 million give: 200 and -5 unscaled, step 28 for a standstill, and step -14 |
| `GlSpeed.SpeedMonotone` | basrcpd/src/srcp-gl.c:56-78 | a higher speed never gets a lower step, whatever the maximum |
| `GlSpeed.SpeedNearest` | basrcpd/src/srcp-gl.c:56-78 | the nearest step, the upper one on a tie, except that a small positive speed gets step 1 |
| `GlSpeed.NegativeMaximum` | basrcpd/src/srcp-gl.c:60-64 | a negative maximum gives the highest step for every speed |
| `GlSpeed.QueryThenSet` | basrcpd/src/srcp-gl.c:682-697 | setting the value a query answered changes no speed, for n_fs up to 255 |
| `GlSpeed.SetThenQuery` | basrcpd/src/srcp-gl.c:682-697 | a query after a set answers less than one step, 1000 / n_fs, away from the value set |
| `GlSpeed.HandleMcsSpeed` | basrcpd/src/srcp-gl.c:682-697 | a value sets the step and queues the locomotive exactly if it changed; a negative one only asks; without a record the answer is -1 |
| `GlSpeed.GlQueue.IsFull` | basrcpd/src/srcp-gl.c:221-233 | true exactly when 199 of the 200 places are taken |
| `GlSpeed.GlQueue.Contains` | basrcpd/src/srcp-gl.c:191-197 | the scan round the ring finds exactly the waiting locomotives |
| `GlSpeed.GlQueue.Enqueue` | basrcpd/src/srcp-gl.c:178-202 | append unless waiting already or full |
| `GlSpeed.GlQueue.Dequeue` | basrcpd/src/srcp-gl.c:237-247 | the one waiting longest leaves |
| `GlSpeed.NeverDropped` | basrcpd/src/srcp-gl.c:191-202 | nobody waits twice, and with up to 199 locomotives no command is ever dropped |
| `GlSpeed.ServedInTurn` | basrcpd/src/srcp-gl.c:191-247 | a waiting locomotive is taken after exactly as many takes as stand before it |
| `CanFrame.PutId` | can-monitor/src/lib.c:69-76 | the digits of the identifier between their bounds, everything else untouched |
| `CanFrame.SprintCanframe` | can-monitor/src/lib.c:249-296 | the buffer holds the text and a terminating 0, inside its 216 bytes |
| `CanFrame.ReadId` | can-monitor/src/lib.c:173-187 | the identifier, or failure at any character that is no digit |
| `CanFrame.ReadData` | can-monitor/src/lib.c:217-233 | the data bytes with optional separators, or failure |
| `CanFrame.ParseCanframe` | can-monitor/src/lib.c:155-236 | the MTU and frame of the text, or 0 |
| `CanFrame.RoundTrip` | can-monitor/src/lib.c:155-296 | parsing a printed frame gives it back with the right MTU, for every normalised standard, extended, error, remote and FD frame, separated or not |
| `CanFrame.ReadsBack` | can-monitor/src/lib.c:155-296 | for every frame: what parsing its printed form gives, and that this is the frame itself if and only if it is normalised |
| `CanFrame.PrintIsInjective` | can-monitor/src/lib.c:249-296 | the text determines frame and kind |
| `CanFrame.NibbleIs` | can-monitor/src/lib.c:112-124 | the digits printed and read are 0 to 9 and A to F, and a to f are read alike |
| `CanFrame.NoNibble` | can-monitor/src/lib.c:112-124 | nothing else is a digit |
| `CanFrame.CaseBlind` | can-monitor/src/lib.c:155-236 | small and capital letters mean the same, in every text |
| `CanFrame.IdIff` | can-monitor/src/lib.c:155-198 | an identifier is accepted if and only if it is three or eight digits and a # |
| `CanFrame.BadTextRefused` | can-monitor/src/lib.c:200-236 | a character that is no digit, or a single digit, behind the data bytes makes the text invalid, for CAN and CAN FD frames |
| `Crc16.TableIs` | can-monitor/src/crc-ccitt.c:4-37 | each of the 256 entries is its index times x^16 modulo the polynomial 0x1021 |
| `Crc16.EightLinear` | can-monitor/src/crc-ccitt.c:39-52 | eight bit steps are linear |
| `Crc16.TableStepIs` | can-monitor/src/crc-ccitt.c:46-49 | the table step is eight bit steps, for every register and byte |
| `Crc16.CrcCcitt` | can-monitor/src/crc-ccitt.c:40-52 | the table form computes the bitwise CRC of every byte sequence and seed |
| `Crc16.StepInjective` | can-monitor/src/crc-ccitt.c:46-49 | a step is injective in the register and in the byte |
| `Crc16.CrcInjective` | can-monitor/src/crc-ccitt.c:40-52 | a whole run is injective in the seed |
| `Crc16.PairInjective` | can-monitor/src/crc-ccitt.c:46-49 | two steps tell any two different pairs of bytes apart |
| `Crc16.AdjacentChangeDetected` | can-monitor/src/crc-ccitt.c:40-52 | a change of one byte or of two adjacent bytes always changes the CRC |
| `Crc16.ByteChangeDetected` | can-monitor/src/crc-ccitt.c:40-52 | the same for one byte of a sequence of any length |
| `Crc16Errors.CrcIs` | can-monitor/src/crc-ccitt.c:40-52 | the CRC of bytes is the bit-serial one of their bits |
| `Crc16Errors.RunIs` | can-monitor/src/crc-ccitt.c:39-52 | up to 16 bits fed one by one are as good as fed at once |
| `Crc16Errors.WindowInjective` | can-monitor/src/crc-ccitt.c:39-52 | different windows of at most 16 bits leave different registers |
| `Crc16Errors.BurstDetected` | can-monitor/src/crc-ccitt.c:40-52 | any change inside 16 bits, at any bit offset, changes the CRC |
| `Crc16Errors.OddErrorsDetected` | can-monitor/src/crc-ccitt.c:40-52 | any odd number of flipped bits, wherever they are, changes the CRC |
| `Crc16Errors.AdjacentIsWindow` | can-monitor/src/crc-ccitt.c:40-52 | a change of two adjacent bytes is one inside 16 bits |
| `ConfigStream.Monitor.Begin` | can-monitor/src/decoder-can-cs2.c:323-343 | a header opens a stream whatever was being collected; `ConfigStream.HeaderOpens` says which |
| `ConfigStream.HeaderOpens` | can-monitor/src/decoder-can-cs2.c:323-343 | a header of 6 or 7 bytes that spells a size and a CRC, highest byte first, opens the stream of that size and CRC; a size below -8 opens none |
| `ConfigStream.Monitor.Collect` | can-monitor/src/decoder-can-cs2.c:351-385 | eight bytes are appended inside size + 8 bytes; a full stream is judged, printed if wanted, and closed |
| `ConfigStream.Monitor.Decode` | can-monitor/src/decoder-can-cs2.c:319-390 | every frame does one step of the stream specification |
| `ConfigStream.Reassembled` | can-monitor/src/decoder-can-cs2.c:351-385 | whatever frames come between: no verdict before the announced size is reached, then exactly one, on exactly the bytes sent |
| `ConfigStream.StreamJudged` | can-monitor/src/decoder-can-cs2.c:323-385 | from the header on, in any state: no verdict before the announced size is reached, then one on the first whole frames that reach it, accepted if and only if their CRC is the announced one |
| `ConfigStream.PayloadAt` | can-monitor/src/decoder-can-cs2.c:351-354 | byte j of data frame k is byte 8 k + j of what is judged |
| `ConfigStream.TriggerIs` | can-monitor/src/decoder-can-cs2.c:345-345 | the frames passed over are those with 0x4347 in bits 8 to 24 of the identifier |
| `ConfigStream.ExportedIs` | can-monitor/src/decoder-can-cs2.c:373-377 | the text printed of an accepted uncompressed stream is what was sent of the announced size, up to the first 0, and all of it if and only if there is no 0 |
| `ConfigStream.TextCut` | can-monitor/src/decoder-can-cs2.c:376-376 | a stream of eight bytes of which one is printed |
| `ConfigStream.ChangeRejected` | can-monitor/src/decoder-can-cs2.c:356-385 | an accepted stream with a change inside any 16 bits, or of any odd number of bits, of what is judged is rejected |
| `ConfigStream.BytesRejected` | can-monitor/src/decoder-can-cs2.c:356-385 | in particular one byte or two adjacent bytes changed on the way |

## Left out

- PacketPool.Pool.Update: asks for an address inside the pool; what a write outside it does is not modelled (see Findings).
- MfxSender.LocoReadBack: holds for addresses below 16384; the address field has 14 bits.
- MfxLoco.RecordObeyed: holds for addresses below 16384, for the same reason.
- MfxLoco.MovesAsRecorded: likewise.
- MfxLoco.FunctionsAsRecorded: likewise.
- CvRead.QueryAsks: likewise.
- MfxDiscovery.MfxManager.Stop: queries and answers alternate; a stop while a query is under way is not combined with its late answer.
- MfxSender.PacketStream.Transmit: returns the bits of the stream; the length byte in front of an mfx stream is kept beside it.
- Refresh.Refresher.RefreshLoco: who has a recent command is an input of each call, not computed from the clock.
- Refresh.RefreshInfo.SendPackets: function packet -1 of the first Maerklin cycle stands for whatever lies one packet before the array, which is the drive packet.
- Refresh.NobodyStarves: assumes fixed pools, and locomotives that keep their refresh class.
- Accessory.Sequencer.Handle: whether the activation time is over is an input; what `setGA` reports to clients is not modelled.
- DccEncoder.CalcFunctionStream: bit strings are sequences of booleans where the source concatenates character arrays.
- DccLoco.CompNmraMultiFunc: takes protocol versions 1 and 2 only, as the init function admits no other; `char` is unsigned.
- GlSpeed.HandleMcsSpeed: the record or its absence is given; its creation in the locomotive directory is not modelled, nor is n_fs = 0, which divides by zero.
- GlSpeed.GlQueue.Enqueue: an entry is the index of a record instead of a pointer to it; the default initialisation of a record without state is left out.
- GlSpeed.SpeedRange: speaks of the arithmetic without overflow; `GlSpeed.MachineIs` says where that is the machine's.
- GlSpeed.SpeedMonotone: likewise.
- GlSpeed.SpeedNearest: likewise.
- GlSpeed.NegativeMaximum: likewise.
- GlSpeed.ScaleIsGood: the record keeps the lowest eight bits of the result.
- CanFrame.ReadId: the identifier is accumulated by multiplication; a string shorter than 9 characters reads as 0 at position 8.
- ConfigStream.Monitor.Collect: inflating a compressed stream is left out, and so is what is printed of a stream without bytes (size 0 or below), whose first byte was never written; so are a failing malloc for a size from -8 on, and sizes above 0x7FFFFFF8, where the counter overflows.
- CvRead.CvReader.Result: the reply length is that of the packet type; the assembly of nibbles from the serial line is not modelled.
- Memory allocation failures, mutexes, threads, pipes, sockets, SPI ioctl, GPIO, clocks and log messages appear as inputs or not at all.
- Binding verification (QMFX1PKTV), the registration counter file, SRCP texts and info messages other than the reports above: one-branch code.
- The Maerklin ternary encoder, DCC accessory and programming packets, service mode acknowledges, and zlib inflate: finite tables, straight-line code or stubs.
- Feedback debouncing, the locomotive directory, and the gateways' network loops: other parts of the station.
