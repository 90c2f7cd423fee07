# Verified model of the UHF gateway core

The gateway polls a PD1000 partial-discharge sensor over Modbus, serves its registers, records discharge events, and lets an operator change its network settings without locking himself out. This project models the four parts whose guarantees span many functions and proves them for all inputs and all runs.

**Network changes.** `Text`, `RichText`, `FlatJson`, `JsonReader`, `Ipv4` and `NetworkConfig` cover the configuration text, from bytes to validated values and back. `Journal` is the write-ahead record. `NetworkProtocol` is the stage/confirm/rollback cycle as a step machine over the journal file, the configuration file, the kernel's addresses, the clock, the daemon's memory and the position of whichever process holds the lock; a crash may come between any two steps and a failed write may have taken effect. `NetworkRuns` states what holds over every run. `NetworkManager.Daemon` is the program itself, the transaction manager over the Linux backend, with oracles for commands, writes and clock readings; every effect it has is one step of the machine, so its runs are runs of the machine.

**Events.** `EventDetector` holds the detector twice, as a transition function and as the object that updates itself in place, proved equal. `EventRuns` proves what its runs keep and `EventLedger` which bundle every trigger goes to. `PersistenceWorker` is the loop around it, `EventStore` (on `Layout`, `Bytes`, `Crc`) the binary file format, `EventFormat` its offsets, `EventPipeline` the path from registers to disk, `StorageCleaner` the low-watermark cleanup.

**Modbus.** `Modbus` is the request plan, `RtuServer` and `TcpServer` the two servers with their stream framing, `Acquisition` and `AcquisitionEngine` the polling engine, `SnapshotStore` what it publishes, `Snapshot` what the registers mean, `CrcLaw` which checksums both formats use.

**Configuration.** `ConfigStore` is the versioned store with its file, parser and compare-and-swap updates.

Four things the code does not do as its surroundings suggest are stated exactly:

- A configuration that passes validation need not survive the journal: a static interface with timeout 0, or a DHCP interface with prefix 0, prints to a record that is refused as corrupt. Round trips hold if and only if the configuration is *printable*. Requests from outside are always printable, because they come out of the parser.
- The daemon's `staged_` flag can outlive the change it stands for. The recovery tool runs beside the daemon on a timer and settles changes without the daemon noticing; from then on the daemon refuses to stage, and refuses to roll back any pair but the old one, until it restarts. The guards refuse if and only if this has happened.
- A stage whose journal write is reported failed may still be pending, and confirming it commits addresses that were never added. A confirmed candidate's addresses are up if and only if they were up before; the confirm request puts them up right afterwards.
- An event bundle's `partial` flag is exact if and only if the merge window is at least the collection timeout (or the queue has no room); shorter merge windows are configurable.

Conventions: bytes are numbers 0..255 and file text is a `string` of such bytes; addresses are "interface, address/prefix" pairs; 64-bit wrap-around is written out where it can happen. A `datatype` result stands for the source's error returns.

## Model

| member | source | states |
|---|---|---|
| `NetworkProtocol.StepKeepsInv` | src/platform/network/network_transaction.cpp:412-604 | every step of the change protocol (journal writes that may fail after taking effect, address commands, configuration writes, crash of either process, reboot, clock, start-up) keeps the invariant tying journal, configuration file, daemon memory and commit history together |
| `NetworkRuns.CrashSafety` | src/platform/network/network_transaction.cpp:412-604 | in every state of every run the journal is readable, the backend works only on the pair the durable journal holds as pending, with nothing pending the configuration file is the last committed one, and with something pending it is one of the two configurations named |
| `NetworkRuns.OnlyCommitsCommit` | src/platform/network/network_transaction.cpp:515-519 | the committed configuration moves only by the write of a `confirmed` record, which adds exactly its own commit |
| `NetworkRuns.CommitsWereTimely` | src/platform/network/network_transaction.cpp:489-499 | for every commit of every run there is an earlier state where that record was still staged and the clock showed the boot that staged it and a time inside the 60-second window |
| `NetworkRuns.GuardsRefuseIffOvertaken` | src/platform/network/linux_backend.cpp:493-497 | in every state of every run: `apply_stage` is refused exactly when the other process has settled a change the daemon still remembers; `confirm` and `rollback` are then refused exactly for a different pair; otherwise no guard refuses |
| `NetworkRuns.PairGuardMeaning` | src/platform/network/linux_backend.cpp:550-556 | comparing printed forms is comparing configurations, for every pair the journal can hold |
| `NetworkRuns.OvertakenIffRemembers` | src/platform/network/linux_backend.cpp:493-497 | with nothing pending, having been overtaken is the same as the daemon's own `staged_` flag being set |
| `NetworkRuns.StaleStageRefused` | src/platform/network/linux_backend.cpp:493-497 | from rest, for any printable static configurations, there is a run in which the recovery tool overtakes the daemon and its next stage is refused; for another candidate its rollback is refused too |
| `NetworkRuns.RecoveryOvertakes` | src/platform/network/network_transaction.cpp:546-580 | the exception is real: from any state with a remembered pending change there is a run in which its deadline passes, the recovery tool finds it due and settles it, and the daemon keeps its stale memory |
| `NetworkRuns.ChangeIsPossible` | src/platform/network/network_transaction.cpp:412-521 | between any two printable static configurations there is a run that stages, confirms and commits the change and ends with exactly the new addresses up |
| `NetworkRuns.WayInStays` | src/platform/network/linux_backend.cpp:872-930 | through any staging, failure, crash, rollback and restart within one boot, until a confirmation is journaled, every committed address that was up stays up |
| `NetworkRuns.UnseenCommitHappens` | src/platform/network/network_transaction.cpp:451-453 | for any two printable static configurations there is a run that commits the candidate although none of its differing addresses was ever added: the stage's journal write was reported failed and had landed |
| `NetworkRuns.StageIsSafeIffPrintable` | src/platform/network/network_transaction.cpp:412-453 | staging any valid candidate keeps the protocol's invariant if and only if the candidate is printable; otherwise the journal is corrupt and no later step of the program gets past it |
| `NetworkRuns.StepKeepsKernel` | src/platform/network/linux_backend.cpp:872-980 | among static configurations every step keeps the kernel's addresses between the foreign ones and the foreign plus the managed ones |
| `NetworkRuns.RunKeepsKernel` | src/platform/network/linux_backend.cpp:493-719 | so does every run, through any number of crashes, rollbacks and reboots |
| `NetworkRuns.RuntimeRestores` | src/platform/network/linux_backend.cpp:677-719 | whenever nothing is pending a successful `start_runtime` leaves exactly the foreign and the committed addresses |
| `NetworkRuns.RollbackRestores` | src/platform/network/linux_backend.cpp:623-675 | from any pending state, any continuation that does not commit and ends settled with `start_runtime` puts back every previous address and leaves no differing candidate address |
| `NetworkManager.Daemon.Stage` | src/platform/network/network_transaction.cpp:412-464 | what staging returns and leaves in every branch, as steps of the protocol: on success a pending record of committed and candidate configuration with a 60-second deadline, remembered by the daemon, exactly the differing candidate addresses added; never a commit; certain to succeed when everything works; a failed stage touches no other address, and none at all when the commands work and the differing ones were not up; busy exactly when something is pending, when everything works |
| `NetworkManager.Daemon.StageText` | src/platform/privileged/network_service.cpp:103-112 | a stage request is invalid exactly when it does not parse; otherwise the parsed configuration is what becomes pending, certainly so when everything works |
| `NetworkManager.Daemon.OpenStage` | src/platform/network/network_transaction.cpp:421-453 | the journal is written only when nothing is pending and the clock can be read; a write reported failed may leave the record pending |
| `NetworkManager.Daemon.Confirm` | src/platform/network/network_transaction.cpp:466-521 | commits only the staged record, and only with the clock reading that was in time; with working commands and a static pair the result is decided by the clock alone: committed in the same boot inside the window, otherwise expired or boot changed and rolled back; on success exactly the differing previous addresses go, so the candidate's are up if and only if they were up before; the journal is never found corrupt; when the commands work, a confirmation that is refused, expired or of another boot leaves up every committed address that was up |
| `NetworkManager.Daemon.ConfirmRequest` | src/platform/privileged/network_service.cpp:113-124 | a successful reply means the committed configuration is in the file and its addresses are up, whatever staging added; with working commands and a static pair the reply is decided by the clock; a reply of failure without a commit leaves up every committed address that was up, when the commands work |
| `NetworkManager.Daemon.RollbackRequest` | src/platform/privileged/network_service.cpp:126-134 | likewise for a rollback on demand, which succeeds whenever commands work and the pending pair is static |
| `NetworkManager.Daemon.Approve` | src/platform/network/network_transaction.cpp:500-520 | the backend's confirmation and the committing write: at most one commit, none when it fails before the write |
| `NetworkManager.Daemon.RollbackNow` | src/platform/network/network_transaction.cpp:523-544 | success means a change was pending, the journal is gone, the file holds the committed configuration and no differing candidate address is up; never a commit |
| `NetworkManager.Daemon.RollbackIfNeeded` | src/platform/network/network_transaction.cpp:546-580 | when the clock can be read, a staged change is left alone if and only if it is of the same boot and before its deadline; otherwise it is rolled back or cleared, which with working commands and a static pair always succeeds |
| `NetworkManager.Daemon.RollbackLoaded` | src/platform/network/network_transaction.cpp:590-604 | the order rollback, `rolled_back` record, clear, and what each failure leaves |
| `NetworkManager.Daemon.RecoverPending` | src/platform/privileged/network_service.cpp:172-194 | recovery after any crash: success means nothing pending, the file equals the committed configuration and the kernel holds exactly foreign and committed addresses; with working commands it succeeds unless the change is not due |
| `NetworkManager.Daemon.ApplyStage` | src/platform/network/linux_backend.cpp:493-548 | success adds exactly the differing candidate addresses and remembers the pair; failure touches no other address and hands over to rollback with the memory unchanged; when the commands work and those addresses were not up, failure leaves the kernel as it was |
| `NetworkManager.Daemon.BackendConfirm` | src/platform/network/linux_backend.cpp:550-621 | success leaves the candidate in the file and takes down exactly the differing previous addresses; failure hands over to rollback, and when the address and route commands work, whatever write failed, it leaves every previous address that was up, up |
| `NetworkManager.Daemon.BackendRollback` | src/platform/network/linux_backend.cpp:623-675 | success leaves the previous configuration in the file and no differing candidate address; a repeated rollback changes neither addresses nor configuration; it succeeds whenever commands work and the guard passes; only differing candidate addresses ever go |
| `NetworkManager.Daemon.StartRuntime` | src/platform/network/linux_backend.cpp:677-719 | only adds configured addresses, and all of them when it succeeds |
| `NetworkManager.Daemon.SaveConfig` | src/platform/network/linux_backend.cpp:820-844 | afterwards the file is the new one, or on failure possibly the old one, never anything else |
| `NetworkManager.Daemon.AddCandidate` | src/platform/network/linux_backend.cpp:872-904 | success adds exactly the differing candidate addresses |
| `NetworkManager.Daemon.RemoveCandidate` | src/platform/network/linux_backend.cpp:906-930 | removes nothing but differing candidate addresses, and all of them on success |
| `NetworkManager.Daemon.RemovePrevious` | src/platform/network/linux_backend.cpp:932-955 | on success exactly the differing previous addresses are gone |
| `NetworkManager.Daemon.RestorePrevious` | src/platform/network/linux_backend.cpp:957-980 | only adds differing previous addresses; when the address commands work all of them are up afterwards, whatever was up before |
| `NetworkManager.Daemon.UndoConfirm` | src/platform/network/linux_backend.cpp:603-618 | a failed confirmation puts the differing previous addresses back, all of them when the address commands work |
| `NetworkManager.FreshAddresses` | src/platform/network/linux_backend.cpp:78-85 | for static interfaces the per-interface comparison of effective addresses is the set difference of the two configurations |
| `Journal.JournalRoundTrip` | src/platform/network/network_transaction.cpp:36-44 | a record with a proper header is loaded back equal if and only if both configurations are printable: valid, prefix 1..32, timeout 1..65535 |
| `Journal.ParseRecord` | src/platform/network/network_transaction.cpp:142-243 | for any two configurations, what parsing a printed record yields, through the nested-object scanner |
| `Journal.LoadedIsSound` | src/platform/network/network_transaction.cpp:370-381 | whatever the file holds, a record that loads has printable configurations, a positive id and a boot id |
| `Journal.ValidRecordVerdict` | src/platform/network/network_transaction.cpp:142-243 | a record of valid configurations loads back equal when both are printable and is refused as corrupt when not |
| `Journal.UnprintableIsCorrupt` | src/platform/network/network_transaction.cpp:142-243 | two valid candidates, static with timeout 0 and DHCP with prefix 0, make every record that names them corrupt |
| `Journal.LoadJournal` | src/platform/network/network_transaction.cpp:142-243 | the member loop over positions computes the declarative load |
| `JsonReader.ExtractObjectAt` | src/platform/network/network_transaction.cpp:107-140 | the one-pass brace scanner finds the object the recursive definition finds, or fails with it |
| `JsonReader.ReadStringAt` | src/platform/network/network_transaction.cpp:46-73 | the string loop: result, rest of the text and refusals |
| `JsonReader.ReadUnsignedAt` | src/platform/network/network_transaction.cpp:75-86 | all digits, their value, refusal on none or beyond 64 bits |
| `JsonReader.SkipSpace` | src/platform/network/network_transaction.cpp:88-96 | stops at the first character that is not space |
| `JsonReader.ParseObjectText` | src/platform/network/network_config.cpp:117-152 | the key loop with its duplicate and unknown-key refusals is the declarative object parser |
| `JsonReader.EscapeText` | src/platform/network/network_transaction.cpp:24-34 | the escaping loop |
| `JsonReader.CountLeadingOnes` | src/platform/network/network_config.cpp:472-496 | the bit loop: leading ones, refused when a one follows a zero |
| `FlatJson.ParsePrinted` | src/platform/network/network_config.cpp:117-152 | any object printed member by member from fields its schema reads is parsed back to exactly those fields, with any white space between tokens |
| `FlatJson.PrintedIsSelfDelimiting` | src/platform/network/network_transaction.cpp:107-140 | a printed flat object is cut out whole from any surrounding text, braces and quotes inside its strings included |
| `FlatJson.ParseTyped` | src/platform/network/network_config.cpp:266-310 | whatever the text, parsed fields are in the schema and in range |
| `Text.ReadStringQuoted` | src/platform/network/network_transaction.cpp:46-73 | a quoted text is read back if and only if it has no control characters and at most 256 bytes |
| `Text.ReadUnsignedDecimal` | src/platform/network/network_transaction.cpp:75-86 | every 64-bit number is read back from its decimal form |
| `NetworkConfig.FlatRoundTripIff` | src/platform/network/network_config.cpp:498-514 | printing then parsing returns the configuration if and only if it is printable; validity alone is not enough |
| `NetworkConfig.ValidRoundTrip` | src/platform/network/network_config.cpp:498-514 | the text of a valid configuration parses back to it when it is printable and is refused when it is not |
| `NetworkConfig.ValidButUnprintable` | src/platform/network/network_config.cpp:389-429 | two configurations that pass validation and are not printable |
| `NetworkConfig.FileRoundTrip` | src/platform/network/linux_backend.cpp:780-789 | the configuration file, with its line feed, is read back equal |
| `NetworkConfig.ParsedIsPrintable` | src/platform/network/network_config.cpp:498-509 | whatever the text, a parsed configuration is printable |
| `NetworkConfig.ReadFlatJson` | src/platform/network/network_config.cpp:498-509 | the parser as loops over positions |
| `NetworkConfig.PrefixOfMeaning` | src/platform/network/network_config.cpp:312-370 | what the prefix of a parsed interface is when the request names a prefix, a netmask, both or neither, and when it is refused |
| `NetworkConfig.ShortTextRoundTrip` | src/platform/network/network_config.cpp:312-370 | a request that names only the prefixes, or only the netmasks, parses to the configuration it was made from |
| `Ipv4.PtonExact` | src/platform/network/network_config.cpp:459-470 | an address has exactly one text: what the parser accepts is what the printer prints |
| `Ipv4.SameSubnetMeaning` | src/platform/network/network_config.cpp:31-45 | a gateway is in the subnet of an address if and only if both lie in one aligned block of 2^(32-prefix) addresses |
| `Ipv4.PtonNtop` | src/platform/network/network_config.cpp:459-470 | every 32-bit address is read back from its dotted form |
| `Ipv4.PrefixRoundTrip` | src/platform/network/network_config.cpp:459-496 | a prefix survives its netmask if and only if it is 1..32 |
| `ConfigStore.ReopenIff` | src/config/config_store.cpp:489-545 | a snapshot survives serialization and reopening if and only if its values are in the parser's ranges and valid and its version is not zero |
| `ConfigStore.ValuesRoundTrip` | src/config/config_store.cpp:644-679 | the 29 values of a printed snapshot are parsed back whatever the defaults |
| `ConfigStore.VersionRoundTrip` | src/config/config_store.cpp:463-483 | the separate version scan finds the version of a printed snapshot and refuses only zero |
| `ConfigStore.ParsedIsPrintable` | src/config/config_store.cpp:279-396 | valid values out of the parser can be printed and parsed again |
| `ConfigStore.NextSound` | src/config/config_store.cpp:557-590 | one call, at any version: the file holds what is in memory or the next snapshot a failed write left; success moves to the next version, modulo 2^64, leaves the file holding memory, and leaves exactly the values submitted, or the old ones with the new name; refusal changes nothing |
| `ConfigStore.OutcomeMeaning` | src/config/config_store.cpp:557-590 | which outcome each call has, from the expected version, the submitted text and the write |
| `ConfigStore.UpdateStoresValues` | src/config/config_store.cpp:557-572 | updating with the printed form of any printable values and reopening gives exactly those values at the next version |
| `ConfigStore.PartialFile` | src/config/config_store.cpp:45-75 | a file with any of the keys, in any order, is accepted if and only if their number is one of the eight allowed; missing keys keep their defaults and the others are what it says |
| `ConfigStore.ReloadRefinement` | src/config/config_store.cpp:557-590 | after any calls the version has advanced by the number of successes, modulo 2^64, and when failed writes had no effect reopening gives exactly the state in memory, or fails if the version is just then zero |
| `ConfigStore.AtMostOneSucceeds` | src/config/config_store.cpp:557-572 | two updates of a run that share an expected version cannot both succeed unless at least 2^64 calls lie between them |
| `ConfigStore.OpenSound` | src/config/config_store.cpp:489-545 | a store that opens, from a file, shipped defaults or built-in ones, agrees with its file |
| `ConfigStore.OpenMeaning` | src/config/config_store.cpp:489-545 | an existing file wins; without one the shipped configuration counts, else the built-in defaults, and the store opens only once that is written |
| `ConfigStore.BuiltInPrintable` | src/config/config_store.hpp:13-43 | the built-in defaults are valid and printable, and a fresh installation starts from them with a file that reopens to them |
| `ConfigStore.ConfigStore.Update` | src/config/config_store.cpp:557-572 | the method is the transition the run properties are about, and so stores the values submitted |
| `ConfigStore.ConfigStore.SetIedName` | src/config/config_store.cpp:574-590 | likewise, with success reported for an unchanged name |
| `RichText.ReadRichQuoted` | src/config/config_store.cpp:89-177 | the full reader undoes the printer's escaping |
| `RichText.UnicodeEscapeDecodes` | src/config/config_store.cpp:131-171 | every code point from space upwards, escaped alone or as a surrogate pair (section 7 of RFC 8259), decodes to its UTF-8 bytes; below that it is refused |
| `Crc.ComputeCrc16` | src/domain/modbus.cpp:6-19 | the bit and byte loops compute the CRC-16 fold |
| `Crc.WithCrc16Ok` | src/modbus/rtu_server.cpp:36-40 | what the sender appends passes the receiver's test |
| `Crc.Step16InState` | src/domain/modbus.cpp:6-19 | a byte step is injective in the register |
| `Crc.Step16InByte` | src/domain/modbus.cpp:6-19 | a byte step is injective in the byte |
| `Crc.Crc16DetectsOneByte` | src/modbus/rtu_server.cpp:63-71 | one changed byte anywhere in an intact frame, checksum included, is noticed |
| `CrcLaw.Crc16IsRemainder` | src/domain/modbus.cpp:6-19 | the register is the remainder over GF(2) of the message, with its leading coefficients complemented, by x^16+x^15+x^2+1, bits in the order of the line |
| `CrcLaw.Trailer16` | src/modbus/rtu_server.cpp:36-71 | a frame passes the checksum test if and only if its last two bytes are the coefficients of that remainder of the bytes before |
| `Crc.ComputeCrc32` | src/storage/event_store.cpp:80-89 | the bit and byte loops compute the CRC-32 fold |
| `Crc.Crc32DetectsOneByte` | src/storage/event_store.cpp:307-311 | one changed byte anywhere in an intact file is noticed |
| `Crc.Crc32OkIsWithCrc32` | src/storage/event_store.cpp:307-311 | an intact file is its body with the checksum put back |
| `CrcLaw.Crc32IsRemainder` | src/storage/event_store.cpp:80-89 | the file checksum is the complement of the same remainder by the IEEE 802.3 polynomial |
| `CrcLaw.Trailer32` | src/storage/event_store.cpp:307-311 | a file passes the checksum test if and only if its last four bytes, complemented, are the coefficients of that remainder of the bytes before |
| `Snapshot.ParseRegisters` | src/domain/snapshot.cpp:41-75 | the single pass with its flags computes the declarative meaning of the register block |
| `Snapshot.PeakInRange` | src/domain/snapshot.cpp:10-23 | a valid peak is inside the sensor's range |
| `Snapshot.RegisterMeaning` | src/domain/snapshot.cpp:41-75 | which register each measurement is read from, as which signed number, and when it is valid |
| `Snapshot.SpectrumMeaning` | src/domain/snapshot.cpp:41-75 | which registers the spectra are read from, in which order, and when each value is valid |
| `Snapshot.StatusMeaning` | src/domain/snapshot.cpp:41-75 | when a block is good, degraded or not refreshed, by its registers |
| `Modbus.RequestPlan` | src/domain/modbus.cpp:21-45 | the array filled in place holds the 31 requests with their wire frames |
| `Modbus.PlanTiles` | src/domain/modbus.cpp:21-45 | every address 10001..13615 is read by exactly one request, none outside |
| `Modbus.WordsRoundTrip` | src/acquisition/acquisition.cpp:399-408 | decoding data bytes returns the registers encoded |
| `RtuServer.HandleRequest` | src/modbus/rtu_server.cpp:63-113 | the handler's branches and loops compute the declared answer |
| `RtuServer.ResponsesIntact` | src/modbus/rtu_server.cpp:63-113 | every answer carries a checksum its reader accepts |
| `RtuServer.DamagedRequestIgnored` | src/modbus/rtu_server.cpp:63-71 | a request damaged in one byte is never answered |
| `RtuServer.AnswersPlan` | src/modbus/rtu_server.cpp:73-113 | each planned request is answered with exactly the registers it names |
| `RtuServer.RequestsAppend` | src/modbus/rtu_server.cpp:115-147 | cutting a stream into requests does not depend on where it is split |
| `RtuServer.RequestsRejoin` | src/modbus/rtu_server.cpp:115-147 | the pieces and the rest make up the stream, each piece 8 bytes and the rest fewer |
| `RtuServer.RequestsFound` | src/modbus/rtu_server.cpp:115-147 | any sequence of 8-byte requests followed by fewer than 8 bytes is cut into exactly those requests |
| `RtuServer.Refusals` | src/modbus/rtu_server.cpp:63-113 | by the bytes of the request: when there is no answer, silence toward another unit included, and which exception code each refusal carries |
| `RtuServer.Framer.Receive` | src/modbus/rtu_server.cpp:115-147 | one read: the buffer holds the residue of everything received, discarded exactly when it would outgrow the limit |
| `RtuServer.RunReads` | src/modbus/rtu_server.cpp:115-147 | however a stream is split into reads, the requests are its 8-byte pieces, each answered once and in order under what was served at the read that completed it, and the rest is kept, unless the buffer overflows |
| `TcpServer.HandleRequest` | src/modbus/tcp_server.cpp:122-178 | the handler's branches and loops compute the declared answer |
| `TcpServer.ResponseMatches` | src/modbus/tcp_server.cpp:122-178 | an answer echoes transaction id and unit and its length field equals its size; ill-framed requests get none |
| `TcpServer.ReadIsServed` | src/modbus/tcp_server.cpp:148-177 | a good read is answered with exactly the registers asked for |
| `TcpServer.SegmentsAppend` | src/modbus/tcp_server.cpp:248-281 | segmentation by the length field does not depend on where the stream is split |
| `TcpServer.SegmentsFound` | src/modbus/tcp_server.cpp:248-281 | any sequence of frames that say their length, followed by the beginning of another, is cut into exactly those frames and that beginning |
| `TcpServer.SegmentsRejoin` | src/modbus/tcp_server.cpp:248-281 | for any stream the segments and the rest concatenate to it, and each segment says its length in bytes 4 and 5 |
| `TcpServer.FatalMeaning` | src/modbus/tcp_server.cpp:258-281 | by the bytes: a connection must close if and only if a segment is no request or the rest names an impossible length |
| `TcpServer.OrdinaryStream` | src/modbus/tcp_server.cpp:248-281 | a stream of well-framed requests and the beginning of another is never fatal and is cut into exactly those requests |
| `TcpServer.Refusals` | src/modbus/tcp_server.cpp:122-160 | by the bytes of the request: which exception code each refusal carries, under the request's own header |
| `TcpServer.Client.Receive` | src/modbus/tcp_server.cpp:248-281 | one read and the segmentation loop: unless an answer finds no room, the requests handled are the unique segmentation up to the first that gets no answer, the connection is closed exactly when there is one or a length no frame can have, and what was sent plus what waits are the answers in order |
| `TcpServer.Client.Answer` | src/modbus/tcp_server.cpp:272-279 | an answer is appended when it exists and fits; otherwise the connection is closed with the output unchanged |
| `TcpServer.Client.Send` | src/modbus/tcp_server.cpp:283-296 | sending moves a prefix of the output out and keeps the account of answers |
| `TcpServer.RunConnection` | src/modbus/tcp_server.cpp:248-297 | over a whole connection, however its bytes are split and whatever is sent in between: requests handled, whether it closes, and the bytes answered are functions of the stream and of what was served at each read, unless an answer finds no room, which is then the answer to the last request handled; the oversize branch is never taken |
| `Acquisition.PublishedIsSourced` | src/acquisition/acquisition.cpp:343-438 | whatever the line does, each register of a published poll comes from an intact reply to its own request in that poll, and writes are at most 31*(max_retries+1) |
| `Acquisition.ResponseJudged` | src/acquisition/acquisition.cpp:240-297 | on an undisturbed line, how a response is judged is decided by the bytes of the reply |
| `Acquisition.PollEnds` | src/acquisition/acquisition.cpp:343-438 | whatever the line does, the requests of a poll follow the plan from reply to reply, retries included, and how it ends matches where the replies lead |
| `Acquisition.UnansweredIffSilent` | src/acquisition/acquisition.cpp:240-297 | a poll is unanswered if and only if it wrote a request whose reply was empty, as its last |
| `Acquisition.SilenceIsUnanswered` | src/acquisition/acquisition.cpp:240-297 | a line that stays silent makes a poll unanswered after one request |
| `Acquisition.ReadExactNotes` | src/acquisition/acquisition.cpp:207-238 | reading records exactly the bytes read |
| `AcquisitionEngine.Engine.ReadAll` | src/acquisition/acquisition.cpp:207-238 | the read loop |
| `AcquisitionEngine.Engine.AwaitResponse` | src/acquisition/acquisition.cpp:240-297 | the response reader with its checks |
| `AcquisitionEngine.Engine.PollOnce` | src/acquisition/acquisition.cpp:343-438 | the nested retry loops over the register array compute the declared poll |
| `AcquisitionEngine.ReadExactDelivers` | src/acquisition/acquisition.cpp:207-238 | however bytes arrive, a full read returns exactly the next ones |
| `AcquisitionEngine.AcquisitionIsIdentity` | src/acquisition/acquisition.cpp:343-438 | polling the serial server for any 3615 registers, in any pieces, publishes exactly those registers |
| `AcquisitionEngine.DamagedReplyRejected` | src/acquisition/acquisition.cpp:240-297 | a reply damaged in one byte never supplies registers |
| `SnapshotStore.RunSummary` | src/acquisition/acquisition.cpp:149-191 | the store's state is a function of the poll history: failures keep the snapshot, the generation counts successes |
| `SnapshotStore.LatestIsSourced` | src/acquisition/acquisition.cpp:343-438 | after any polls, whatever the line did, readers see the meaning of the registers of the last poll that published, each register from an intact reply to its own request during that very poll, or nothing if none did |
| `AcquisitionEngine.PollInto` | src/acquisition/acquisition.cpp:343-438 | a poll publishes once or is noted as failed, in the store readers see |
| `SnapshotStore.AlarmIffThreeUnanswered` | src/acquisition/acquisition.cpp:171-191 | the alarm holds if and only if the last three or more polls were all unanswered |
| `SnapshotStore.AlarmIffThreeSilent` | src/acquisition/acquisition.cpp:171-191 | the communication alarm is on if and only if each of the last three polls ended in a request with an empty reply |
| `SnapshotStore.Store.PublishPayload` | src/acquisition/acquisition.cpp:149-169 | the whole new state after a success |
| `SnapshotStore.Store.NoteFailure` | src/acquisition/acquisition.cpp:171-191 | the whole new state after a failure |
| `EventDetector.LiveDetector.ObserveSnapshot` | src/storage/event_detector.cpp:170-252 | observing in place is the transition the run properties are about |
| `EventDetector.LiveDetector.ExpireAll` | src/storage/event_detector.cpp:145-161 | expiry of both slots in place |
| `EventDetector.LiveDetector.RouteTriggers` | src/storage/event_detector.cpp:206-245 | routing in place is the declared routing, which `EventLedger.RouteExact` pins |
| `EventDetector.LiveDetector.Create` | src/storage/event_detector.cpp:66-102 | a new bundle in the first free slot |
| `EventDetector.LiveDetector.JudgePeak` | src/storage/event_detector.cpp:182-204 | hysteresis and jump test |
| `EventDetector.LiveDetector.EnqueueBundle` | src/storage/event_detector.cpp:132-143 | the bounded queue and its drop |
| `EventDetector.LiveDetector.AppendPostFrame` | src/storage/event_detector.cpp:118-130 | frames after the trigger, at most three, no generation twice |
| `EventRuns.RunFrames` | src/storage/event_detector.cpp:66-161 | over every run: each active or emitted bundle is the slice around the accepted snapshot recorded at its creation, on which a trigger fired and whose times it carries; no two bundles share that snapshot; active reasons are disjoint |
| `EventRuns.DeliveredBundles` | src/storage/event_detector.cpp:66-161 | every bundle handed out is the contiguous slice around its own trigger snapshot, at most two frames before it and three after, generations strictly increasing, with the times of that observation; a partial one has fewer than three after, and with long merge windows exactly those are partial |
| `EventRuns.ShortMergeMisses` | src/storage/event_detector.cpp:145-161 | with a merge window shorter than the collection timeout one trigger yields a short bundle not marked partial |
| `EventRuns.PartialExactIffLongMerge` | src/storage/event_detector.cpp:145-161 | over all runs `partial` says whether fewer than three frames follow the trigger snapshot, if and only if the merge window is at least the collection timeout or the queue has no room at all |
| `EventRuns.RouteCounts` | src/storage/event_detector.cpp:206-245 | with disjoint reasons there is always a slot, so a trigger adds one to exactly one bundle |
| `EventRuns.RunConserved` | src/storage/event_detector.cpp:36-143 | bundles created equal active, queued, delivered and dropped ones, and triggers equal the sum of their counts, below saturation |
| `EventRuns.RunHysteresis` | src/storage/event_detector.cpp:182-204 | over every run: the armed flag is a fold over the valid peaks, the strong triggers are in order exactly the peaks that fire, and what each accepted snapshot fired, strong or sudden, is decided by its own peak and those before it |
| `EventRuns.RearmBetweenTriggers` | src/storage/event_detector.cpp:182-204 | in every run whose options keep the re-arm level at or below the trigger level, between any two strong triggers an accepted, fresh, valid peak lies strictly below the re-arm level in force |
| `EventRuns.HysteresisIffOrdered` | src/storage/event_detector.cpp:182-204 | under unchanged options the strong triggers of every run are so separated if and only if the re-arm level is at most the trigger level; the configuration check asks for strictly below |
| `EventLedger.RouteExact` | src/storage/event_detector.cpp:206-245 | every active bundle gets the triggers that belong to it and no other, and a bundle is created, in the first free slot, if and only if something fired and no active bundle carries a reason that fired |
| `EventLedger.BornIff` | src/storage/event_detector.cpp:170-252 | in every run an accepted snapshot creates a bundle if and only if a trigger fires on it, strong by hysteresis or sudden by its jump, and no bundle whose merge window is still open carries a reason that fired |
| `EventLedger.RunLedger` | src/storage/event_detector.cpp:36-116 | over every run each bundle, active, waiting, handed out or dropped, has exactly the reasons, the count, the greatest peak and the greatest jump of the triggers credited to it, beyond saturation too |
| `EventLedger.RunEntries` | src/storage/event_detector.cpp:170-245 | over every run the triggers credited are in order exactly those that fired, each once with the peak and jump of its snapshot, and each in a bundle its snapshot created, or that already had its reason, or that already had the other reason which fired with it |
| `EventLedger.QueueIsNewest` | src/storage/event_detector.cpp:132-143 | however many bundles are put into an empty queue it holds the newest in order, as many as may wait, and counts the rest as dropped |
| `PersistenceWorker.WorkerDrains` | src/storage/persistence_runtime.cpp:153-210 | at the end of every iteration the queue is empty, nothing was dropped by the detector, every bundle created is active, saved or dropped by the worker, and the alarm is the negation of the armed flag |
| `PersistenceWorker.QueueStaysShort` | src/storage/persistence_runtime.cpp:153-210 | inside an iteration the queue never exceeds three |
| `PersistenceWorker.WorkerIsRun` | src/storage/persistence_runtime.cpp:153-210 | the loop is the detector's run over every snapshot it was ever shown: its own test for new generations holds nothing back |
| `PersistenceWorker.TallyMeaning` | src/storage/persistence_runtime.cpp:113-142 | a finished bundle counts as saved if and only if the store is accepting and its own save goes through, otherwise as dropped |
| `PersistenceWorker.PersistenceLoop.SaveCompleted` | src/storage/persistence_runtime.cpp:113-142 | the saving loop and its two counters |
| `PersistenceWorker.PersistenceLoop.RunIteration` | src/storage/persistence_runtime.cpp:153-210 | the loop body in place is the iteration the run properties are about |
| `EventStore.ReadBackWritten` | src/storage/event_store.cpp:235-361 | a stored bundle is read back, up to steady clock and millisecond truncation, if and only if its frames are parsed ones |
| `EventStore.WrittenIsReadBack` | src/storage/event_store.cpp:295-361 | an accepted file with a representable timestamp is exactly what its bundle encodes to |
| `EventStore.DamagedFileRejected` | src/storage/event_store.cpp:307-311 | one changed byte and the file is refused |
| `EventFormat.HeaderLayout` | src/storage/event_store.cpp:247-262 | which number stands at which offset of a stored file's header, least significant byte first, and the time in whole milliseconds |
| `EventFormat.FrameLayout` | src/storage/event_store.cpp:263-281 | each frame stands at 54 + 7242 i: generation, status code, register count and the registers in order |
| `EventStore.EncodeBundle` | src/storage/event_store.cpp:235-293 | checks, header and frame loops compute the declared bytes or refusal |
| `EventStore.DecodeBundle` | src/storage/event_store.cpp:295-361 | the offset loops compute the declared bundle or refusal |
| `EventStore.AppendFrames` | src/storage/event_store.cpp:263-281 | the frame loop with its repeated-generation search |
| `EventPipeline.PipelineRoundTrip` | src/storage/event_store.cpp:235-361 | every bundle a detector fed with parsed snapshots hands out passes the store's checks and is read back |
| `StorageCleaner.PercentExact` | src/storage/storage_cleaner.cpp:123-129 | the percentage is the exact floor and no intermediate product overflows |
| `StorageCleaner.SaturatingAdd` | src/storage/storage_cleaner.cpp:131-137 | the sum capped at the 64-bit maximum |
| `StorageCleaner.SortKeeps` | src/storage/storage_cleaner.cpp:114-119 | sorting keeps every candidate and orders by time, then by path |
| `StorageCleaner.TwoPassesAreOne` | src/storage/storage_cleaner.cpp:195-237 | the two deletion passes equal one oldest-first pass that spares the newest frame, whatever the retention |
| `StorageCleaner.OnePassRemovesPrefix` | src/storage/storage_cleaner.cpp:195-237 | the removed files are a prefix of that order, ending at the first failure or the first probe at the threshold |
| `StorageCleaner.ThresholdsMeaning` | src/storage/storage_cleaner.cpp:147-170 | both thresholds in terms of the options and the total |
| `StorageCleaner.RunDeletes` | src/storage/storage_cleaner.cpp:147-247 | a run below its threshold deletes the oldest files up to the one after which space is recovered, sparing the newest frame, and stops early only when a deletion or a measurement fails |
| `StorageCleaner.NewestFrameIsGreatest` | src/storage/storage_cleaner.cpp:185-193 | the spared frame is a newest one |
| `StorageCleaner.RunIsSafe` | src/storage/storage_cleaner.cpp:147-247 | from either state of the flag: recovery threshold at least the low one, low watermark implies paused, resumption only at or above the recovery threshold |
| `StorageCleaner.NewestFrameSurvives` | src/storage/storage_cleaner.cpp:147-247 | the newest frame a scan found is never deleted by that run |
| `StorageCleaner.Cleaner.DeleteExpired` | src/storage/storage_cleaner.cpp:196-225 | the first pass over the vector, clearing paths in place |
| `StorageCleaner.Cleaner.RunOnce` | src/storage/storage_cleaner.cpp:147-247 | a run in place is the run the safety properties are about |

## Left out

- The web server, authentication, TLS, FTP, IEC 61850, logging, health and the periodic frame files: plumbing, foreign libraries, or weaker copies of what is modelled.
- The DHCP client and what leases contain: leases are arbitrary values and every client call is an oracle. Kernel-address results are for configurations static on both interfaces; rollback of a DHCP candidate without a stored lease is refused, as in the source.
- Routes: route commands succeed or fail but have no modelled effect, since candidate routes keep a metric that later deletions do not name.
- The vendor configuration files and the first-boot initialisation in `read_current`: writing vendor files is an oracle inside `SaveConfig`, and a readable configuration file is assumed to exist.
- `refresh_runtime`: it only acts on DHCP interfaces.
- The switch that turns off `start_runtime` in the request handlers: it is taken to be on.
- Threads, real clocks, `fsync`, and power loss that reorders writes: a write takes effect or not, atomically. `start_runtime` does not overlap a change by the other process.
- A TCP connection that ends because the peer or the network ends it: its run is any beginning of a connection.
- Quarantine after a serial error, including its termination; poll timestamps; the wording of error messages.
- NUL bytes inside address strings, and the control-character escapes of the network printer, which no valid configuration needs.
- The DNS array beyond `dns_count`: a configuration keeps the first `dns_count` entries as a sequence.
- The error returns for a corrupt journal: proved unreachable, since every record written loads back, and so absent from the daemon's methods.
- NetworkManager.Daemon.Stage: takes candidates that are printable when valid, as the only caller, which parses them, guarantees; `NetworkRuns.StageIsSafeIffPrintable` says what any other valid candidate does. It also takes fewer than 2^64 stages per process, since the id counter's wrap to zero is not modelled.
- NetworkManager.Daemon.OpenStage: takes printable candidates only, for the same reason.
- NetworkManager.Daemon.Confirm: when the committing write is reported failed the change may or may not be committed; the contract says which of the two states results, not which one.
- NetworkRuns.RollbackRestores: stated for continuations without a reboot that changes the foreign addresses; after a reboot `RuntimeRestores` applies.
- EventRuns.RunConserved: trigger counts are compared below counter saturation.
- Acquisition: deadlines are an oracle consulted at each check, not a clock.
