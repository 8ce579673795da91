# RivetTX core, modelled and proved

RivetTX is firmware for a radio-control transmitter.  Its portable core is a set of state machines behind
small hardware interfaces.  This project models the hard ones in Dafny and proves what they promise over
whole runs: the transactional model store and its binary format, the flash programmer with its streaming
hash, the on-screen-display driver, the safety gate and the hand-off of a new model between tasks, the CRSF
link layer, the mixer's output stage with everything that changes a model and the copies of it that two tasks
keep, the video receiver's channel scan and the memory-card service.

`dafny verify dfyconfig.toml` checks everything.

## How it is built

Every state machine appears twice.  A `datatype` with a `Step` function says what one call does; hardware,
time and scheduling enter as arguments, so a lemma about all runs is a lemma about all environments.  A
`class` with the fields of the source does the same work in place, and each of its methods is proved to take
the abstract value exactly where the function takes it.  Files with `Laws` in their name hold the theorems
about runs, safety and completion alike: what is kept whatever the environment answers, and what is reached when
it works.

| files | part of the core |
|---|---|
| Bits, Crc | fixed-width words, CRC-32 and the DVB-S2 CRC-8 |
| Wire, Model, Records, Payload, ModelCodec, CodecLaws, MigrateLaws, FileLayout, CodecObjects | the model, its file format in schemas 1 to 6, printer, parser, migrations, and the bytes of a file |
| FileStore, ModelStore | files with failing operations and power cuts, `save`, `load` and the slot index |
| Sha256, Sha256Laws, NorFlash, Amt630a, AmtCompletion, FlashScript, Amt630aController | the flash programmer |
| At7456e, OsdLaws, OsdRegisters, OsdRank, OsdConvergence, At7456eObject | the display driver and its chip |
| Safety, SafetyLaws, SafetyObject | the safety gate |
| Activation, ActivationLaws | the tasks that exchange a model |
| CrsfPacking, CrsfParser, CrsfObjects, CrsfQueue | the radio link |
| Shaping, Mixer, RuntimeModel, ScreenLaws, RuntimeObjects | curves, expo, outputs, fades, edits, trims, captured failsafe |
| EditSession, EditSessionLaws | the copies of the model: in use, offered for saving, edited, on the way to the control task |
| Vrx, VrxLaws, VrxObject | the channel scan |
| RemovableStorage, RemovableObject | the memory card |

Byte values are integers from 0 to 255 and words integers below 2^32; wrapping, truncating division and
narrowing are written out.  Bitwise operators are recursive functions on the binary digits.

## What turned out not to hold as promised

The code is modelled as it is; each of these is a lemma with the exact condition or with the input that shows it.

- `load` repairs the active file by first rewriting the temporary one.  If the record was found only there, a
  failure or cut during the repair can lose it.  Whatever a repair leaves behind, the next load finds the same record
  exactly when it was not exposed in this way (`ModelStore.RecoveryIsStable`).
- `save` removes the backup on finding that the active file exists, without looking whether it is intact.  Two
  saves in a row, each failing or cut anywhere, always leave a model to be loaded exactly if the store was
  recoverable before: the active file intact, or absent with an intact backup (`ModelStore.SavesLeaveAModel`).
- `initialize` of the flash programmer keeps ownership right exactly when the flash is not owned
  (`Amt630a.InitializeOwnership`).
- Leaving Enabled zeroes the count of healthy cycles unless a second `boot_complete` does it, after which one
  passing call enables again (`SafetyLaws.LeavingZeroes`, `SafetyLaws.SecondBootSkipsStreak`).
- No live frame passes the gate in maintenance, but one that passed before can still be sent after
  `begin_maintenance`: exactly if, between gate and send, a lock by another task is followed by the beginning of a
  hand-off or of another use of maintenance that has not ended by then (`ActivationLaws.LeakExactly`), and at most
  once (`ActivationLaws.LeakIsBounded`).
- The display driver sends nothing, although every transfer completes, when it is called no more often than it
  polls the status, every 100 ms; called at a fixed period it brings a frame to the display exactly if the period
  is shorter (`OsdConvergence.Starves`, `OsdConvergence.ShownExactly`).
- An edit accepted while an activation is under way is lost: the end of the activation forgets that an edit was
  made, and the next trim or capture overwrites the edited model.  It stays exactly if it comes at another time,
  or changes nothing, or values of another generation were merged in during the activation
  (`EditSessionLaws.LateEditLost`).
- A video channel chosen on its page or found by a scan, saved or not, is given back by the next trim or capture
  after an activation under way has ended.  It stays exactly if an activation is wanted then (by the edits, or by
  values of another generation merged in during the activation under way) or it is the channel of the model then in
  use (`EditSessionLaws.VideoReverts`).
- A model that was selected, or read again after a backup was restored over its file, is lost when a trim or capture
  comes before the control task has adopted it: the model still in use is merged over it, and the next save
  writes that over the file.  It stays exactly if its slot or its generation is another one, edits want an
  activation during a restore, or it is the model in use (`EditSessionLaws.RestoreLost`).
- A stored model may hold a model id above 63 or a threshold beyond 1024 that its own screen cannot enter again
  (`ScreenLaws.GetPut`).
- A speed limit larger than 31 bits collapses to one, which takes nine hours between two frames
  (`Shaping.SlewLimitExact`).
- The activation state -1, which the user-interface task handles as a failure, is never stored.

## Model

| member | source | states |
|---|---|---|
| `Crc.ComputeCrc32` | components/rivet_core/storage.cpp:591-602 | the loops over bytes and bits compute the fold of the reflected polynomial over the data |
| `Crc.Fold32Injective` | components/rivet_core/storage.cpp:595-600 | two different registers stay different over any common data, of any length |
| `Crc.WindowDetected` | components/rivet_core/storage.cpp:591-602 | two different windows of up to four bytes leave different registers, whatever follows |
| `Crc.BurstDetected` | components/rivet_core/storage.cpp:591-602 | any alteration confined to four consecutive bytes changes the CRC-32 |
| `Crc.StepDivides32` | components/rivet_core/storage.cpp:591-602 | a step of the register is linear, moves every bit but the last down and turns the last into the reflected polynomial 0xEDB88320: what makes the checksum the CRC-32 |
| `Crc.KnownAnswers` | components/rivet_core/storage.cpp:591-602 | the checksums of the empty message, of four bytes 0xFF and, for the link, of a single one are the known ones |
| `Crc.ComputeCrc8` | components/rivet_core/crsf.cpp:47-62 | the DVB-S2 loops compute the fold of polynomial 0xD5 |
| `Crc.ByteChangeDetected` | components/rivet_core/crsf.cpp:47-67 | altering one byte always changes the DVB-S2 CRC |
| `Crc.StepDivides8` | components/rivet_core/crsf.cpp:47-62 | a step of the link's register is linear and turns the highest bit into 0xD5 |
| `Wire.FieldsForward` | components/rivet_core/storage.cpp:22-115 | every integer and flag written is read back, at any position of a longer stream |
| `Wire.FieldsBackward` | components/rivet_core/storage.cpp:22-115 | every integer and flag read is written again as the same bytes |
| `Wire.TableForward` | components/rivet_core/storage.cpp:320-427 | a table of records is read back entry by entry, given its record's round trip |
| `Wire.TableBackward` | components/rivet_core/storage.cpp:429-587 | a table that was read is written again as the same bytes, and each entry passed its check |
| `ModelCodec.PayloadSize` | components/rivet_core/storage.cpp:320-427 | in every schema the payload size is a linear function of the six counts |
| `ModelCodec.HeaderBackward` | components/rivet_core/storage.cpp:614-650 | a header that was read is written again as the same 20 bytes |
| `Payload.PayloadForward` | components/rivet_core/storage.cpp:320-587 | in every schema parsing a printed payload gives the model with unused table entries at their defaults, and consumes every byte |
| `Payload.PayloadBackward` | components/rivet_core/storage.cpp:429-587 | in every schema printing a parsed payload gives the same bytes, and the parsed model has no used entry beyond its counts |
| `CodecLaws.NormalizeValid` | components/rivet_core/storage.cpp:196-318 | resetting unused entries keeps a model valid and its encoding the same |
| `CodecLaws.DecodeEncode` | components/rivet_core/storage.cpp:614-672 | every valid model decodes from its encoding, with its generation |
| `CodecLaws.DecodeOld` | components/rivet_core/storage.cpp:632-766 | a file as a firmware of any older schema wrote it decodes to the migrated model, or is refused exactly if that is not valid |
| `FileLayout.FileBytes` | components/rivet_core/storage.cpp:320-630 | a file byte by byte: the letters RRVM, schema, reserved field, length, generation, checksum, and every record with each field at its place, low byte first, negative numbers in two's complement |
| `CodecLaws.EncodeDecode` | components/rivet_core/storage.cpp:614-672 | every accepted schema-6 file with a zero reserved field is re-encoded to the same bytes |
| `CodecLaws.AcceptedIsFixedPoint` | components/rivet_core/storage.cpp:632-766 | every accepted file of schemas 1 to 6 yields a valid model that is a fixed point of encoding and decoding |
| `CodecLaws.MigrateKeepsGVars` | components/rivet_core/storage.cpp:674-766 | migration from schemas 1 and 2 keeps the effective value of every flight-mode variable |
| `MigrateLaws.HeadUpgraded` | components/rivet_core/storage.cpp:674-766 | the head of every accepted file, of any schema, is the file's own but for the counts of gained lines, schema 1's required switches and the one a stock model gains |
| `MigrateLaws.LinesUpgraded` | components/rivet_core/storage.cpp:689-755 | every input, mix and output of every accepted file is the file's own, except that a stock model of before schema 4 has channels 4 to 7 follow the switches 4 to 7 and channel 4 fail safe at -1024, and one of before schema 5 has channels 8 to 11 follow the axes 4 to 7, at weight 100, always |
| `MigrateLaws.RestKept` | components/rivet_core/storage.cpp:674-766 | all else in every accepted file is the file's own, except video 0, 0, on, on before schema 6 and the derived masks of modes before schema 3 |
| `MigrateLaws.SwitchFourRequired` | components/rivet_core/storage.cpp:711-716 | the gained switch 4 is a required switch |
| `CodecLaws.TornFileRejected` | components/rivet_core/storage.cpp:632-650 | no strict prefix of an accepted file is accepted, and the error is the one the code gives |
| `CodecLaws.BurstRejected` | components/rivet_core/storage.cpp:652-656 | any alteration of the payload inside four bytes is reported as a CRC mismatch |
| `CodecObjects.WritePayload` | components/rivet_core/storage.cpp:320-427 | the growing writer produces the printed payload |
| `CodecObjects.WriteFile` | components/rivet_core/storage.cpp:614-630 | `encode` produces the file, and nothing for an invalid model |
| `CodecObjects.ReadPayload` | components/rivet_core/storage.cpp:429-587 | the advancing reader fills a default model exactly as the parser function does, for every schema, and fails when it fails |
| `CodecObjects.MigrateInPlace` | components/rivet_core/storage.cpp:674-766 | the upgrade in place, with its loops over modes, axes and auxiliary switches, computes the migration |
| `CodecObjects.ReadFile` | components/rivet_core/storage.cpp:632-672 | `decode` accepts, rejects and reports as specified |
| `FileStore.Medium.Write` | components/rivet_core/storage.cpp:804-818 | a write succeeds whole, fails, or leaves a prefix where the power was cut; every intermediate state is recorded |
| `FileStore.RetriesSafe` | components/rivet_core/storage.cpp:894-928 | whatever two saves in a row can leave behind holds a record to be found, exactly if the files before were recoverable |
| `FileStore.RepairKeeps` | components/rivet_core/storage.cpp:949-957 | whatever a repair can leave behind is sound and recoverable if the files before were |
| `FileStore.ResolveSound` | components/rivet_core/storage.cpp:931-944 | in a sound set of files a reader finds an allowed record, and always finds one if the set is recoverable |
| `FileStore.Stage` | components/rivet_core/storage.cpp:894-897 | writing the temporary file keeps the store sound and recoverable at every cut and touches no other file |
| `FileStore.Preserve` | components/rivet_core/storage.cpp:908-916 | moving the active file to the backup keeps the store sound and recoverable at every cut |
| `FileStore.Activate` | components/rivet_core/storage.cpp:908-928 | moving the verified file into place, with its roll-back, keeps the store sound and recoverable at every cut |
| `FileStore.InPlaceIs` | components/rivet_core/storage.cpp:908-928 | what a finished save leaves: the encoding active, no temporary file, and the formerly active file as the backup, or the backup as it was if there was none |
| `FileStore.CopyBack` | components/rivet_core/storage.cpp:949-962 | restoring a recovered record keeps the store sound and recoverable at every cut |
| `ModelStore.EncodedUnmistakable` | components/rivet_core/storage.cpp:614-656 | an encoded model decodes and no torn copy of it does: what joins format and protocol |
| `ModelStore.TransactionalModelStore.Save` | components/rivet_core/storage.cpp:886-929 | at every intermediate file state only the old records or the new one can be found, and from any store with an intact active or backup file one of them is found; each of these states is one of those a save can leave; a valid model is saved whenever the medium refuses, tears and cuts no operation of the call, and on success the files are exactly those of a finished save, so that the new model and generation are what the active file holds, also on a medium that tears silently |
| `ModelStore.TransactionalModelStore.Load` | components/rivet_core/storage.cpp:931-966 | succeeds exactly if one of the three files is intact, returns the first such, says whether it was recovered, and leaves the store sound and recoverable at every cut of its own repair, each state being one that a repair can leave; a recovered record is restored whenever no operation of the repair is refused, and the files are then exactly the repaired ones |
| `ModelStore.Run` | components/rivet_core/storage.cpp:886-966 | any sequence of saves, loads and power-ups with failing operations and cuts anywhere: always recoverable, each load returns a model stored at the start or passed to a save, and right after a successful save exactly that one, unrecovered; and if nothing is refused every save of a valid model and every load succeeds |
| `ModelStore.RecoveryIsStable` | components/rivet_core/storage.cpp:949-962 | every state the repair can leave resolves to the record it found, exactly unless that record was held by the temporary file alone in front of an older backup or none |
| `ModelStore.SavesLeaveAModel` | components/rivet_core/storage.cpp:886-929 | two saves of any valid models, failing or cut anywhere, leave a model to be loaded exactly if the store was recoverable before |
| `ModelStore.IndexUnmistakable` | components/rivet_core/storage.cpp:995-1029 | an encoded slot index decodes to its slot and no strict prefix of it decodes |
| `ModelStore.SlotIndex.WriteActiveIndex` | components/rivet_core/storage.cpp:1057-1090 | on a medium that reports its tears, at every cut the index resolves to an old slot or the new one, and to the new one after success |
| `ModelStore.SlotIndex.ReadActiveIndex` | components/rivet_core/storage.cpp:1043-1055 | reads the first intact candidate of active, temporary and backup |
| `Sha256.Context.Transform` | components/rivet_core/amt630a.cpp:30-63 | the message schedule and the 64 rounds compute the compression function of section 6.2.2 of FIPS 180-4 |
| `Sha256.Context.Update` | components/rivet_core/amt630a.cpp:65-78 | absorbing data of any size extends the absorbed message by it |
| `Sha256.Context.Finish` | components/rivet_core/amt630a.cpp:80-102 | the digest is the hash of everything absorbed, padded as in section 5.1.1 of FIPS 180-4 |
| `Sha256.PadMinimal` | components/rivet_core/amt630a.cpp:80-91 | the padding of section 5.1.1 of FIPS 180-4 has the fewest zeros that fill whole blocks |
| `Sha256.HashOf` | components/rivet_core/amt630a.cpp:392-398 | the one-shot function computes the hash |
| `Sha256.HashChunks` | components/rivet_core/amt630a.cpp:65-102 | any split of a message into updates gives the same digest |
| `Sha256Laws.RoundConstants0` | components/rivet_core/amt630a.cpp:9-22 | round constants 0 to 7 are the fractional parts of the cube roots of the primes number 1 to 8 (section 4.2.2 of FIPS 180-4) |
| `Sha256Laws.RoundConstants8` | components/rivet_core/amt630a.cpp:9-22 | round constants 8 to 15 are the fractional parts of the cube roots of the primes number 9 to 16 (section 4.2.2 of FIPS 180-4) |
| `Sha256Laws.RoundConstants16` | components/rivet_core/amt630a.cpp:9-22 | round constants 16 to 23 are the fractional parts of the cube roots of the primes number 17 to 24 (section 4.2.2 of FIPS 180-4) |
| `Sha256Laws.RoundConstants24` | components/rivet_core/amt630a.cpp:9-22 | round constants 24 to 31 are the fractional parts of the cube roots of the primes number 25 to 32 (section 4.2.2 of FIPS 180-4) |
| `Sha256Laws.RoundConstants32` | components/rivet_core/amt630a.cpp:9-22 | round constants 32 to 39 are the fractional parts of the cube roots of the primes number 33 to 40 (section 4.2.2 of FIPS 180-4) |
| `Sha256Laws.RoundConstants40` | components/rivet_core/amt630a.cpp:9-22 | round constants 40 to 47 are the fractional parts of the cube roots of the primes number 41 to 48 (section 4.2.2 of FIPS 180-4) |
| `Sha256Laws.RoundConstants48` | components/rivet_core/amt630a.cpp:9-22 | round constants 48 to 55 are the fractional parts of the cube roots of the primes number 49 to 56 (section 4.2.2 of FIPS 180-4) |
| `Sha256Laws.RoundConstants56` | components/rivet_core/amt630a.cpp:9-22 | round constants 56 to 63 are the fractional parts of the cube roots of the primes number 57 to 64 (section 4.2.2 of FIPS 180-4) |
| `Sha256Laws.InitialWords` | components/rivet_core/include/rivettx/amt630a.hpp:102-104 | the initial words are the fractional parts of the square roots of the first eight primes (section 5.3.3 of FIPS 180-4) |
| `Sha256Laws.RotatesBits` | components/rivet_core/amt630a.cpp:24-27 | a rotation, computed by division and multiplication, moves every bit and loses none |
| `Sha256Laws.SigmaBits` | components/rivet_core/amt630a.cpp:39-56 | the four functions that rotate and shift, bit by bit (section 4.1.2 of FIPS 180-4) |
| `Sha256Laws.VoteBits` | components/rivet_core/amt630a.cpp:50-57 | bit by bit one function chooses and the other takes the majority |
| `Sha256Laws.RoundAdds` | components/rivet_core/amt630a.cpp:49-61 | a round adds up modulo 2^32 what section 6.2.2 of FIPS 180-4 adds up, and moves the other variables on |
| `Sha256Laws.ScheduleAdds` | components/rivet_core/amt630a.cpp:32-47 | the schedule is the block in big-endian words, continued by sums of four earlier words |
| `NorFlash.ProgramErased` | components/rivet_core/amt630a.cpp:329-344 | programming within a page writes exactly the data onto erased cells and changes nothing else |
| `Amt630a.StepKeepsInv` | components/rivet_core/amt630a.cpp:112-388 | the invariant of phases, offsets, digest and ownership is kept by every call, whatever the hardware answers |
| `Amt630a.OwnedExactly` | components/rivet_core/amt630a.cpp:176-204 | in every run the flash is owned exactly from CheckingFlash to ReleasingFlash, also after timeout, fault and cancel |
| `Amt630a.InitializeOwnership` | components/rivet_core/amt630a.cpp:112-122 | `initialize` keeps the invariant exactly outside the owned phases |
| `Amt630a.ReadTick` | components/rivet_core/amt630a.cpp:271-365 | each read starts where the last ended, is cut at the image end, and what was read is appended to what is hashed |
| `Amt630a.PhaseGraph` | components/rivet_core/amt630a.cpp:223-388 | one tick stays, faults or follows one edge of the phase graph |
| `Amt630a.ReleaseNeedsDigest` | components/rivet_core/amt630a.cpp:271-365 | the flash is handed back only by a tick that ends a pass over the whole image whose bytes hash to the expected digest |
| `Amt630a.VerifiedImage` | components/rivet_core/amt630a.cpp:316-365 | once programming is done the flash prefix is the image |
| `Amt630a.StepKeepsFlash` | components/rivet_core/amt630a.cpp:223-388 | with faithful reads every step keeps the flash erased, written up to the offset or equal to the image as the phase says; each page write meets an idle, latched chip, and the Checksum fault is never raised |
| `Amt630a.RunKeepsFlash` | components/rivet_core/amt630a.cpp:112-388 | the same over every run, with aborts in the middle of an erase or a program and any number of new starts |
| `Amt630a.ReleasedFlashIsImage` | components/rivet_core/amt630a.cpp:176-371 | in every such run the flash handed back has the expected digest, and is the image if the run programmed it |
| `Amt630a.BusyAcquisition` | components/rivet_core/amt630a.cpp:258-270 | after an abort the next run goes on exactly if the flash identifies itself, and then it is idle; otherwise it faults and gives the flash back |
| `Amt630a.AbortedRunRetries` | components/rivet_core/amt630a.cpp:124-204 | from every state that waits for a busy flash, cancel, recovery, detection and start lead to a new acquisition with the flash still busy, and on into the run once it is idle |
| `FlashScript.MemoryFollows` | components/rivet_core/amt630a.cpp:112-388 | a call changes the flash memory by the command it sends and in no other way |
| `FlashScript.MemoryKept` | components/rivet_core/amt630a.cpp:112-388 | a run that sends neither erase nor program commands leaves the memory as it was |
| `FlashScript.RunFollows` | components/rivet_core/amt630a.cpp:223-388 | in every run, whatever the flash answers, the commands sent since acquisition are the ones the phase promises |
| `FlashScript.ReleasedAfterScript` | components/rivet_core/amt630a.cpp:271-371 | the flash is handed back after reads over the whole image, or after erase, the pages of the image, each with its own write-enable, and reads over the whole image |
| `FlashScript.PagesTile` | components/rivet_core/amt630a.cpp:316-344 | the page writes are the image in order; each starts at a page boundary, none crosses one, and each follows its own write-enable |
| `FlashScript.ReadsCover` | components/rivet_core/amt630a.cpp:271-365 | the reads of a pass cover every byte once and in order |
| `Amt630a.TickSpendsBudget` | components/rivet_core/amt630a.cpp:206-388 | every tick of a run at a later time lowers a measure of progress and time to the deadline |
| `Amt630a.StartSetsDeadline` | components/rivet_core/amt630a.cpp:124-174 | starting a program or a check sets the deadline that termination rests on |
| `Amt630a.RunTerminates` | components/rivet_core/amt630a.cpp:206-388 | with an advancing clock every run has reached Complete or Fault after as many ticks as the measure |
| `Amt630a.BudgetBound` | components/rivet_core/amt630a.cpp:206-221 | the measure is at most (5 size + 11)(timeout + 2) |
| `AmtCompletion.RunCompletes` | components/rivet_core/amt630a.cpp:124-388 | over a working chip every accepted run completes, after exactly 4 ticks a page and 8 more, or for a check one tick a page and 4 more if it finds the image and 5 a page and 9 more if not, besides the ticks that wait; without a fault, the flash released, untouched if the check found the image and else holding exactly the image |
| `AmtCompletion.RegularRunCompletes` | components/rivet_core/amt630a.cpp:206-388 | no deadline is met on the way if ticks come at regular enough times: the timeout holds 259 of their gaps and one for each waiting tick |
| `AmtCompletion.FaultsExactly` | components/rivet_core/amt630a.cpp:223-388 | outside the idle states a tick faults exactly if it is late, the call it relies on fails, the device or the chip is another one, or what was read back has another digest, and the fault says which |
| `AmtCompletion.IdleFaults` | components/rivet_core/amt630a.cpp:244-257 | an idle programmer gives its device up exactly when three status readings in a row have failed |
| `Amt630aController.ImageMatches` | components/rivet_core/amt630a.cpp:124-135 | an image is accepted exactly if it fits and has its digest |
| `Amt630aController.Programmer.InitializeNow` | components/rivet_core/amt630a.cpp:112-122 | does what the step function says, and keeps the invariant |
| `Amt630aController.Programmer.Start` | components/rivet_core/amt630a.cpp:124-146 | accepts exactly from Ready or Complete with a matching image, and starts the run |
| `Amt630aController.Programmer.Ensure` | components/rivet_core/amt630a.cpp:148-174 | accepts exactly as specified from every state, and starts with a check of the flash |
| `Amt630aController.Programmer.CancelProgram` | components/rivet_core/amt630a.cpp:176-183 | ends exactly a run under way, releasing the flash |
| `Amt630aController.Programmer.RecoverNow` | components/rivet_core/amt630a.cpp:185-194 | leaves exactly Fault and Unavailable for detection |
| `Amt630aController.Programmer.TickNow` | components/rivet_core/amt630a.cpp:223-388 | one tick, with its buffered reads and running hash, refines the step function, whose runs complete over a working chip |
| `OsdLaws.StepKeepsInv` | components/rivet_core/at7456e.cpp:55-204 | coherence, the run's bounds and the chip's address counter are kept by every call, however transfers end |
| `OsdLaws.AlwaysCoherent` | components/rivet_core/at7456e.cpp:94-473 | in every reachable state every valid shadow cell outside the sent part of the run equals the chip's cell |
| `OsdLaws.VisibleRowsOnly` | components/rivet_core/at7456e.cpp:266-297 | no transfer but a reset changes a cell below the rows visible in the configured standard |
| `OsdRegisters.StepKeepsRegs` | components/rivet_core/at7456e.cpp:94-498 | every call keeps the video mode, black level and character registers in line with the phase, however transfers end |
| `OsdRegisters.DisplayAlwaysOn` | components/rivet_core/at7456e.cpp:158-204 | in every reachable state of an initialized driver the chip's display is on, except while characters are written, when it is off; it is in PAL exactly if that is the driver's standard, unless a change is still to be configured; that standard is the one last detected; and the automatic black level is on |
| `OsdRegisters.BlackLevel` | components/rivet_core/at7456e.cpp:309-311 | one bit of the black level is cleared and the others are kept |
| `OsdRegisters.UploadsArrive` | components/rivet_core/at7456e.cpp:82-92 | in every run without a failure the character memory is what it was with the queued and accepted glyphs written over it in turn, each committed once, as soon as the queue is empty |
| `OsdRank.RunPaysOff` | components/rivet_core/at7456e.cpp:336-357 | a finished run lowers the pending count by exactly its length |
| `OsdRank.GoodTick` | components/rivet_core/at7456e.cpp:94-204 | every tick without a failure keeps the driver settled and, unless it polls the status, lowers the rank or finds nothing to write |
| `OsdConvergence.TickSpends` | components/rivet_core/at7456e.cpp:94-473 | in every phase, from reset over configuration and glyph upload to the cells, a tick that meets a working chip lowers one budget of ticks and waiting time |
| `OsdConvergence.Converges` | components/rivet_core/at7456e.cpp:94-473 | from every state of a started driver as many ticks as the budget, plus a bounded number for each busy answer and each late tick, end with the display switched on in its standard and every visible cell showing the frame |
| `OsdConvergence.GlyphsArrive` | components/rivet_core/at7456e.cpp:94-396 | after the same ticks the glyph queue is empty and each glyph is in the chip, whose character memory has changed in no other way unless a reset came first |
| `OsdConvergence.AlwaysConverges` | components/rivet_core/at7456e.cpp:55-473 | after any history of calls, ticks less than a status period apart lead to the frame and to every queued glyph in the chip within a fixed number of them, and one more fixed number for each queued glyph and each busy answer |
| `OsdConvergence.Quiescent` | components/rivet_core/at7456e.cpp:266-278 | once the frame is shown nothing is written to the chip any more |
| `OsdConvergence.Starves` | components/rivet_core/at7456e.cpp:144-153 | ticks a status period or more apart send no cell and no glyph, for any number of them |
| `OsdConvergence.ShownExactly` | components/rivet_core/at7456e.cpp:144-153 | at a fixed period a frame not yet shown is shown exactly if the period is shorter than that of the status polls |
| `At7456eObject.OsdDriver.UpdatePendingCount` | components/rivet_core/at7456e.cpp:475-491 | the loop counts the dirty visible cells |
| `At7456eObject.OsdDriver.PrepareRun` | components/rivet_core/at7456e.cpp:266-297 | the two loops find the first dirty cell and the longest run from it, up to 24 cells and the visible rows |
| `At7456eObject.OsdDriver.FinishRun` | components/rivet_core/at7456e.cpp:349-357 | exactly the run's cells enter the shadow and become valid |
| `At7456eObject.OsdDriver.TickNow` | components/rivet_core/at7456e.cpp:94-204 | one tick refines the step function and keeps the invariant |
| `At7456eObject.OsdDriver.StartNow` | components/rivet_core/at7456e.cpp:55-74 | a restart aborts a transfer under way and invalidates the shadow |
| `At7456eObject.OsdDriver.SubmitFrame` | components/rivet_core/at7456e.cpp:76-80 | a frame can be submitted at any time, with a correct pending count |
| `SafetyLaws.Mirrored` | components/rivet_core/core.cpp:806-903 | the flags of the manager, also a pending overrun, are exactly what its history of calls says, in every run |
| `SafetyLaws.LiveOnlyIfAllChecks` | components/rivet_core/core.cpp:938-1023 | a live frame leaves the gate only with a good boot, no watchdog fault ever, no overrun since the last call that looked for one, valid and fresh inputs, the last battery and module reports good, and a standing request |
| `SafetyLaws.PassingIsFull` | components/rivet_core/core.cpp:905-1010 | the checks on the way to Enabled, spelled out on the throttle axis, the switch bits, ages and voltages |
| `SafetyLaws.ReasonIsFirstFailure` | components/rivet_core/core.cpp:938-1010 | a call that does not pass shows state and reason of the first check that failed, in the order of the source |
| `SafetyLaws.CountersCount` | components/rivet_core/core.cpp:892-990 | in every run the counters of missed deadlines and stale frames count the overruns and the calls that failed at the age of their inputs, in 32 bits |
| `SafetyLaws.OtherwiseLocked` | components/rivet_core/core.cpp:921-1023 | every other frame is the failsafe values with throttle and CH5 at -1024, the call's time and the proposed number; Enabled passes the frame through |
| `SafetyLaws.EnabledIsEarned` | components/rivet_core/core.cpp:938-1023 | with one boot each entry into Enabled is a call whose throttle is at or below its limit and whose required switches are as required, and ends at least the configured number of consecutive calls that passed every check, with a standing request |
| `SafetyLaws.PassesEnable` | components/rivet_core/core.cpp:1011-1023 | conversely that many passing calls with a standing request do enable |
| `SafetyLaws.LeavingZeroes` | components/rivet_core/core.cpp:806-1023 | leaving Enabled zeroes the count if and only if it was not by another `boot_complete` (or no cycles are required) |
| `SafetyLaws.SecondBootSkipsStreak` | components/rivet_core/core.cpp:806-825 | after a second good boot in Enabled one passing call enables again |
| `SafetyLaws.MaintenanceExcludesLive` | components/rivet_core/core.cpp:1037-1046 | in maintenance the manager is not Enabled, has no request, and gates only locked frames |
| `SafetyObject.SafetyManager.SwitchesOk` | components/rivet_core/core.cpp:905-919 | the loop over eight bits decides whether every required switch is as required |
| `SafetyObject.SafetyManager.BuildSafeFrame` | components/rivet_core/core.cpp:921-936 | the failsafe values with throttle and CH5 forced low |
| `SafetyObject.SafetyManager.GateNow` | components/rivet_core/core.cpp:938-1023 | the branches return the specified frame and leave the specified state, in the order of the source |
| `SafetyObject.SafetyManager.BootCompleted` | components/rivet_core/core.cpp:806-825 | refines the step function |
| `SafetyObject.SafetyManager.ReportModuleReady` | components/rivet_core/core.cpp:877-890 | refines the step function; a fault is not hidden by an offline module |
| `SafetyObject.SafetyManager.ReportMixerDuration` | components/rivet_core/core.cpp:892-903 | refines the step function |
| `SafetyObject.SafetyManager.BeginMaintenanceNow` | components/rivet_core/core.cpp:1037-1046 | succeeds exactly outside maintenance and Enabled, and withdraws the request |
| `ActivationLaws.StepKeepsInv` | main/app_main.cpp:436-612 | the invariant of lock, hand-off variable, program counters and logs is kept by every step of every task |
| `ActivationLaws.MaintenanceIsQuiet` | components/rivet_core/core.cpp:1037-1052 | under every interleaving maintenance implies not Enabled and no outstanding request |
| `ActivationLaws.AdoptedAsPublished` | main/app_main.cpp:442-469 | at most one candidate is in flight; what was adopted is what was published, each once, whole and in order |
| `ActivationLaws.NeverReplacedWhileEnabled` | main/app_main.cpp:454-469 | the model is replaced only by the last published candidate, in maintenance and not enabled; otherwise only trims and failsafe values change |
| `ActivationLaws.GateClosedInMaintenance` | main/app_main.cpp:596-597 | no live frame passes the gate in maintenance |
| `ActivationLaws.LeakIsBounded` | main/app_main.cpp:597-599 | a frame gated before can be sent in maintenance at most once per maintenance period, only after a foreign lock, and never after the candidate was taken |
| `ActivationLaws.LeakExactly` | main/app_main.cpp:597-599 | whatever the other tasks do between gate and send, the frame is sent in maintenance if and only if a lock among their calls is followed by a begin that has not ended |
| `ActivationLaws.LeakHappens` | main/app_main.cpp:2065-2073 | from every state with a live frame waiting, a foreign lock and the start of a hand-off let it out |
| `ActivationLaws.NoLockNoLeak` | main/app_main.cpp:597-599 | without a foreign lock between gate and send the frame is sent outside maintenance, whatever else the other tasks do |
| `ActivationLaws.HandoffCompletes` | main/app_main.cpp:1505-1528 | under every interleaving, once the control task's own steps and then those of the user interface have come in their order, the published candidate has been adopted, is the model in use but for trims and failsafe values, and maintenance has ended |
| `ActivationLaws.HandoffUndisturbed` | main/app_main.cpp:442-469 | undisturbed, eight steps of the two tasks are enough |
| `CrsfPacking.ChannelSurvives` | components/rivet_core/crsf.cpp:83-88 | a channel within 1024 comes back within 2 and never larger in magnitude |
| `CrsfPacking.ChannelScale` | components/rivet_core/crsf.cpp:83-88 | ends and centre of a channel are 172, 1811 and 992, and the scale between is straight and never falls |
| `CrsfPacking.PackingRoundTrip` | simulator/virtual_hardware.cpp:178-201 | payload in base 256 and channels in base 2048 are one number, and the unpacker recovers every channel value |
| `CrsfPacking.FrameLayout` | components/rivet_core/crsf.cpp:74-102 | the frame is address, length and type of a channels frame, the payload, and the checksum of type and payload |
| `CrsfPacking.MakeChannelsFrame` | components/rivet_core/crsf.cpp:74-102 | the accumulator loop writes exactly the 26-byte frame: no bit is left over and none is shifted out of 32 bits |
| `CrsfPacking.UnpackChannels` | simulator/virtual_hardware.cpp:178-201 | the unpacking loop reads exactly the 16 values of a payload |
| `CrsfParser.StreamAccounts` | components/rivet_core/crsf.cpp:284-377 | dropped bytes, bad headers, rejected and accepted frames and the buffer are the stream, byte for byte and in order, and each accepted frame is well formed, also with pops and switching of the queues between bytes |
| `CrsfParser.BytesConserved` | components/rivet_core/crsf.cpp:284-502 | over every run of calls bytes fed are buffered, dropped, two per length error, CRC-rejected or accepted |
| `CrsfParser.ManagementConserved` | components/rivet_core/crsf.cpp:358-502 | over every run each accepted management frame has been popped, waits, or is counted as dropped |
| `CrsfParser.FrameRouted` | components/rivet_core/crsf.cpp:313-377 | every whole frame to the radio or to everybody is accepted: offered to scripts unless it is one of four kinds of telemetry or scripts are off, and to the management queue if it is a device description, parameter or module status; a full queue of eight drops it |
| `CrsfParser.InOrder` | components/rivet_core/crsf.cpp:330-502 | both queues are first in, first out over every run: what was delivered, or given up at switching off, followed by what is held is what came and found room, in order |
| `CrsfParser.StreamAccepted` | components/rivet_core/crsf.cpp:284-377 | from a boundary a concatenation of well-formed frames is accepted frame by frame |
| `CrsfParser.AlteredFrameRejected` | components/rivet_core/crsf.cpp:313-321 | one byte of type, payload or CRC altered gives one CRC error, no acceptance, and a parser in step with the frames that follow |
| `CrsfObjects.StreamParser.FeedByte` | components/rivet_core/crsf.cpp:284-377 | feeding a byte into the fixed buffer refines the framer, with all six 32-bit counters |
| `CrsfObjects.StreamParser.AcceptFrame` | components/rivet_core/crsf.cpp:323-377 | an accepted frame reaches each queue it is meant for, or is counted as dropped |
| `CrsfObjects.StreamParser.PopFrame` | components/rivet_core/crsf.cpp:478-488 | takes the oldest frame kept for scripts |
| `CrsfObjects.StreamParser.PopManagementFrame` | components/rivet_core/crsf.cpp:490-502 | takes the oldest frame kept for management |
| `CrsfObjects.StreamParser.SetLuaFrameQueueEnabled` | components/rivet_core/crsf.cpp:468-476 | switches the queue for scripts, and empties it when switching off |
| `CrsfObjects.FrameQueue.TryPush` | components/rivet_core/crsf.cpp:353-373 | appends unless eight frames are held, across counter wrap |
| `CrsfObjects.FrameQueue.Pop` | components/rivet_core/crsf.cpp:490-502 | takes the oldest frame, or fails exactly if there is none |
| `CrsfQueue.StepKeepsInv` | components/rivet_core/crsf.cpp:353-373 | every atomic step and every byte copied keeps slots, counters and logs in agreement |
| `CrsfQueue.QueueCorrect` | components/rivet_core/crsf.cpp:353-502 | under every interleaving popped frames are the accepted ones in order, whole, none lost or doubled; at most eight are held; accepted plus dropped plus one under way is offered |
| `CrsfQueue.NoFalseAlarm` | components/rivet_core/crsf.cpp:353-502 | a frame is dropped only with the queue full at that load, and a pop fails only with it empty at that load |
| `Shaping.CurveBetween` | components/rivet_core/core.cpp:221-239 | within a segment a curve stays between the two points at its ends |
| `Shaping.CurveThroughPoints` | components/rivet_core/core.cpp:221-239 | a curve passes through its nine points, despite integer division |
| `Shaping.ExpoShape` | components/rivet_core/core.cpp:209-219 | expo is odd, keeps centre and ends, stays on the stick's side, and softens or sharpens as its sign says |
| `Shaping.SlewMoves` | components/rivet_core/core.cpp:710-722 | a speed-limited mix moves toward its target by no more than the limit, never past it, and meets a target within reach |
| `Shaping.SlewLimitExact` | components/rivet_core/core.cpp:713-722 | the limit is the configured one exactly while the product fits 31 bits, for every product |
| `Mixer.EvaluateKeeps` | components/rivet_core/core.cpp:611-769 | every frame of every run lies within its output limits, for any sums, also in the middle of a fade |
| `Mixer.NoJumpOnModeChange` | components/rivet_core/core.cpp:611-628 | with a fade the frame of a flight-mode change repeats the frame before it |
| `Mixer.FadeApproaches` | components/rivet_core/core.cpp:751-762 | with a steady target a fading output only gets closer to it |
| `Mixer.FadeEnds` | components/rivet_core/core.cpp:763-765 | after its duration the fade is over and the frame is the target |
| `Mixer.FadeLasts` | components/rivet_core/core.cpp:611-628 | a fade lasts the longer of the two times, and starts from the last frame of the old mode |
| `Mixer.FadeFrames` | components/rivet_core/core.cpp:751-762 | the frames of a fade lie on the straight line from where it began to the target, rounded toward its beginning |
| `Mixer.OutputFollows` | components/rivet_core/core.cpp:740-750 | outside a fade an output that is not reversed is its sum moved by the subtrim wherever that lies between the limits, and else the nearer limit |
| `Mixer.ReversedMirrors` | components/rivet_core/core.cpp:743-746 | a reversed output gives what it would give, not reversed, for the opposite sum |
| `Mixer.OutputMonotone` | components/rivet_core/core.cpp:740-750 | an output never falls while its sum rises, and a reversed one never rises |
| `RuntimeModel.EditKeepsValid` | components/rivet_core/ui.cpp:1310-1468 | every accepted edit maps a valid model to a valid one |
| `RuntimeModel.OutputEditRefused` | components/rivet_core/ui.cpp:1383-1402 | a limit within range is refused exactly when the model would stop being valid |
| `ScreenLaws.PutGet` | components/rivet_core/ui.cpp:1310-1468 | a value the editor accepts is the value its screen then shows |
| `ScreenLaws.PutLocal` | components/rivet_core/ui.cpp:1310-1468 | an accepted edit changes what is shown for no other field |
| `ScreenLaws.GetPut` | components/rivet_core/ui.cpp:920-1083 | entering the value shown changes nothing, exactly unless it is a model id or threshold beyond the editor's range |
| `ScreenLaws.OfferedAccepted` | components/rivet_core/ui.cpp:920-1083 | a value the screens offer is accepted, exactly unless it would put an output's limits out of order |
| `RuntimeModel.TrimKeepsValid` | components/rivet_core/core.cpp:334-399 | a trim step maps a valid model to a valid one |
| `RuntimeModel.TrimMovesLittle` | components/rivet_core/core.cpp:355-397 | a trim within its limit moves by one step at most or is centred, stays within the limit, and repeats only after the repeat time |
| `RuntimeModel.TrimSteps` | components/rivet_core/core.cpp:334-399 | the first switch of an axis steps its trim down by 8 and the second up by 8, at once, after half a second and every tenth of a second while held; both centre it once; nothing else moves it |
| `RuntimeModel.InstantTrimKeepsValid` | main/app_main.cpp:543-551 | an instant trim maps a valid model to a valid one |
| `RuntimeModel.InstantTrimTakesOver` | main/app_main.cpp:543-551 | stick position and new trim give the old trim as far as trims reach, and nothing else changes |
| `RuntimeModel.CaptureKeepsValid` | components/rivet_core/services.cpp:389-395 | a captured frame within the limits is a failsafe within the limits and keeps the model valid |
| `RuntimeModel.CapturedIsSent` | components/rivet_core/services.cpp:389-395 | a radio locked after a capture sends the captured frame but for throttle and CH5, and the capture changes failsafe values only |
| `RuntimeModel.WithValuesIsFine` | main/app_main.cpp:1477-1486 | trims of all five modes and failsafe values taken over from another model keep the edited one valid, whatever modes either uses |
| `RuntimeModel.ValuesTaken` | main/app_main.cpp:1477-1486 | trims and failsafe values become the running model's, everything else stays the edited one's |
| `EditSession.StepKeepsInv` | main/app_main.cpp:436-560 | every call of either task keeps all four copies valid, with the trims of used and unused modes in range |
| `EditSessionLaws.AlwaysSaveable` | main/app_main.cpp:1450-1868 | over every run of frames, trims, captures, edits, merges, saves, selections and adoptions the model in use, the offered copy and the edited model decode from their encoding, and every frame is within limits |
| `EditSessionLaws.StartsBooted` | main/app_main.cpp:2380-2401 | started from any accepted file the radio has copies that agree and are all valid |
| `EditSessionLaws.EditsSurvive` | main/app_main.cpp:1450-1868 | over every such run, with edits outside activations and no selected file that holds another model under the label of a copy in use, the edited model is the one the edits and selections alone make, but for trims, failsafe values and the video channel |
| `EditSessionLaws.LateEditLost` | main/app_main.cpp:1505-1516 | in every state an edit survives the end of an activation and the trim after it exactly if it came outside the activation, changed nothing, or values of another generation were merged during it |
| `EditSessionLaws.VideoReverts` | main/app_main.cpp:1426-1496 | in every state a chosen video channel, saved or not, survives the end of an activation and the trim after it exactly if an activation is wanted then, or it is the one in use |
| `EditSessionLaws.RestoreLost` | main/app_main.cpp:1477-1510 | a selected or restored model survives a trim before its adoption, in what the next save writes, exactly if slot or generation differ, edits want an activation during a restore, or it is the model in use |
| `EditSessionLaws.OfferOverSelection` | main/app_main.cpp:1450-1496 | the same exact condition for a copy offered before the selection and merged after it |
| `RuntimeObjects.MixerOutput.EvaluateNow` | components/rivet_core/core.cpp:611-773 | the loops over sixteen channels produce the specified frame and state |
| `RuntimeObjects.TrimController.Update` | components/rivet_core/core.cpp:334-399 | the loop over four axes updates trims and repeat times as specified |
| `RuntimeObjects.ModelInUse.ApplyEdit` | components/rivet_core/ui.cpp:1472-1480 | an edit is committed whole or not at all |
| `RuntimeObjects.ModelInUse.Capture` | components/rivet_core/services.cpp:389-395 | the loop writes each output's failsafe and nothing else |
| `RuntimeObjects.ModelInUse.TrimFromSticks` | main/app_main.cpp:543-551 | the loop writes the eight trims of the active mode and nothing else |
| `RuntimeObjects.ModelInUse.TakeValues` | main/app_main.cpp:1477-1486 | the two loops take over trims and failsafe values and nothing else |
| `VrxLaws.RunKeepsInv` | components/rivet_core/product.cpp:43-285 | the scan's bookkeeping is kept by every call |
| `VrxLaws.ResultIsOptimal` | components/rivet_core/product.cpp:130-181 | a published result had all 48 candidates sampled once each, each at least the dwell time after its tune, and is the first with the strongest valid reading |
| `VrxLaws.SampledInOrder` | components/rivet_core/product.cpp:130-155 | sample number i is taken while candidate i is tuned, is valid exactly if the receiver is calibrated and the reading one of twelve bits, and holds the reading |
| `VrxLaws.CancelRestores` | components/rivet_core/product.cpp:71-81 | a scan begun, run for any while and cancelled asks for the channel selected when it began |
| `VrxLaws.NoValidRestores` | components/rivet_core/product.cpp:267-285 | a scan without a valid sample asks for that channel too and publishes nothing |
| `VrxLaws.ScanCompletes` | components/rivet_core/product.cpp:53-285 | a scan over a working receiver ends within 97 ticks besides those that wait, all channels sampled: on the first of the strongest valid ones, reporting it, or back on the channel it came from if none was valid |
| `VrxLaws.SelectTunes` | components/rivet_core/product.cpp:43-51 | a selected channel is tuned exactly if it exists, is accepted and settles; a tuner that fails or is late leaves the receiver unavailable with the reason |
| `VrxObject.VrxController.TickNow` | components/rivet_core/product.cpp:130-165 | one tick refines the step function |
| `VrxObject.VrxController.Begin` | components/rivet_core/product.cpp:53-69 | starts a scan exactly if none is under way, and reports whether the first retune was accepted |
| `VrxObject.VrxController.Cancel` | components/rivet_core/product.cpp:71-81 | ends a scan under way and reports whether the retune was accepted |
| `RemovableStorage.WritableOnlyAfterChecks` | components/rivet_core/removable_storage.cpp:169-268 | the card is writable exactly in Ready, after power, identification, read-only mount, validation, remount and directories in that order since its insertion; before that nothing is carried out on it |
| `RemovableStorage.FirstInFirstOut` | components/rivet_core/removable_storage.cpp:76-116 | accepted requests are carried out in order and at most once; accepted equals carried out plus waiting plus discarded at removal |
| `RemovableStorage.FaultEndsByRemovalOnly` | components/rivet_core/removable_storage.cpp:269-281 | a fault ends exactly by a debounced removal |
| `RemovableStorage.CardBecomesReady` | components/rivet_core/removable_storage.cpp:169-253 | an inserted card that works is powered, mounted and writable after exactly five ticks besides those that wait |
| `RemovableStorage.DetectedRises` | components/rivet_core/removable_storage.cpp:65-74 | a newly detected card is on that way |
| `RemovableStorage.CardFaults` | components/rivet_core/removable_storage.cpp:197-253 | a card that does not work faults exactly if one of its answers is bad, as unsupported or corrupt only if it was found to be, and loses its power |
| `RemovableStorage.RequestsServed` | components/rivet_core/removable_storage.cpp:254-268 | a working card carries out every waiting request, one a tick, and answers each but the log records with its token and data, in order |
| `RemovableStorage.StaysBelowRoot` | components/rivet_core/removable_storage.cpp:19-40 | the path of an admitted request starts at the root, and no part of it is empty, save the last, goes up, or holds another separator or a drive |
| `RemovableObject.StorageService.TickNow` | components/rivet_core/removable_storage.cpp:169-282 | one tick refines the step function |
| `RemovableObject.StorageService.EnqueueRequest` | components/rivet_core/removable_storage.cpp:96-116 | admits exactly well-formed requests in Ready with room in the ring, and counts dropped log records |
| `RemovableObject.Ring.Push` | components/rivet_core/removable_storage.cpp:76-84 | appends to the ring unless it is full |
| `RemovableObject.Ring.Pop` | components/rivet_core/removable_storage.cpp:86-94 | takes the oldest entry of the ring, or fails exactly if it is empty |

## Assumptions

- Calls of `read` and `exists` answer truthfully, and the medium does not reorder completed operations; a file
  whose write was cut holds a strict prefix.  A medium whose writes can tear without an error (`silent`) is
  allowed for `save`, which reads back what it wrote; `load` does not read its repair back and the slot index is
  not read back either, so the statements about these exclude such a medium.
- Clocks are unbounded and, where a lemma says so, advancing.
- Release of the flash always drops ownership, as main/esp_platform.cpp:1415 does.
- The display chip behaves like the device in tests/test_main.cpp:418-457; a reset or an aborted transfer may
  leave it in any state.  Convergence is stated for one that answers: transfers complete, the video mode register
  reads as what it holds, and the video standard is steady while cells are sent.
- The flash answers its identity only when idle; it may finish an erase or a program at any time.
- The user-interface loop merges before it saves in each pass, and a pass that ends an activation does not save,
  since that restarts the second of quiet (main/app_main.cpp:1450, 1510, 1827).
- A working chip, receiver or card is one that does what each completion theorem lists for it: calls succeed, reads
  are faithful, identities are the expected ones, waits end.
- Each locked call and each atomic access is one step, in one total order.

## Left out

- Activation.Step: the task loops are steps over values, not classes; the lock and the atomics are what orders the steps.
- FileStore.Medium.Write: operating-system error codes and error texts are not modelled, only success and failure.
- Mixer.EvaluateKeeps: the selection and summing of input, mix and logical-switch lines; the sixteen sums may be any integers instead.
- CrsfParser.StreamAccepted: the telemetry values that accepted frames carry are not decoded.
- EditSession.Step: a copy is offered and its values change in one step, and generations do not wrap at 2^32; a failed save of the edited model changes nothing and is no step.
- VrxLaws.ResultIsOptimal: filtering, hysteresis and staleness of the displayed signal strength.
- RemovableStorage.FirstInFirstOut: what a request does on the card; the data of a completion is whatever the card delivers.
- The header fields generation and reserved are not covered by the model CRC, so no detection is claimed for them.
- The BA-polynomial CRC has no constant term, so no detection is claimed for it.
- Glyph, request and completion rings of the specifications are sequences; their ring form is in the classes, except for the glyph ring.
- `ModelLibrary` beyond its slot index, calibration storage, backup export and import.
- ESP-IDF drivers, USB, Wi-Fi, rendering, menus, audio, scripting and the ELRS parameter protocol: hardware glue and presentation.
- Memory orders weaker than sequential consistency.
