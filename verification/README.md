# agent-run: verified models of its protocols, parsers and formats

agent-run supervises coding agents. Most of it is input and output, but a handful of parts are
state machines, incremental parsers or printer/reader pairs whose promises must hold on every
run. This project models those parts in Dafny and proves what they promise. Code that updates
things step by step is a class or a method with loops, proved against a specification function;
protocols are step machines, and their theorems range over every sequence of events.

Verify everything with `dafny verify dfyconfig.toml`.

- **Release cutover** (`Deployment`, `DeploymentSafety`, `DeploymentCuts`,
  `DeploymentCommands`): a disk, a journal and a pointer; every filesystem operation is one step and power may fail between any
  two. Running services may migrate the store, but not between a schema check and its switch.
- **Redaction** (`Redaction`, `RedactionStream`, `RedactionAgreement`, `RedactionOrder`,
  `RedactionBuffer`, `RedactionMarker`, `Utf8`): the fragment-by-fragment scanner against
  whole-text replacement. Replaced text is tracked as one atomic symbol, which makes "no secret
  can touch the marker" precise.
- **Engine RPC** (`EngineRpc`, `EngineAnswers`) and **ownership persistence** (`Ownership`,
  `OwnershipReports`): arrivals, deadlines and write results are scripts chosen by an adversary;
  history variables record every event's fate and every write.
- **Broker lane** (`BrokerLane`): the retry loop over an unreliable writer, and ordinals over
  every interleaving of callers.
- **Archive inspection** (`Tar`, `TarFields`, `TarExact`, `TarMetadata`, `TarStream`,
  `TarArchive`, `TarNames`, `TarPrinter`): the streaming inspector accepts exactly the streams with one declarative
  description, following the ustar interchange format of the pax utility in IEEE Std 1003.1-2017.
- **Event stream** (`Sse`, `SseDocument`, `SseRoundTrip`): the byte automaton of the server-sent event reader,
  sections 9.2.5 and 9.2.6 of the WHATWG HTML Standard.
- **Tool filter and namespaces** (`ToolFilter`, `ToolArgument`, `ToolAcceptance`,
  `Namespaces`).
- **Role plans** (`Roots`, `RolePlan`, `RolePlanRoundTrip`, `RoleResolution`,
  `ResolutionProperties`, `ResolutionOutcome`, `Ordering`): resolution, canonical printing and strict reading.
- **Native call table** (`NativeCalls`): every sequence of reservations and receipts.

Where a tempting property is false of the code, the model keeps the code and proves exactly when
the property holds:

- A rollback restores a file only if it existed at deploy time; the whole home is back if and
  only if no file absent then exists now (`RollbackRestoresDeployedHome`).
- Rolling forward a journal that was interrupted after its first write moves the pointer without
  schema evidence (`ForwardedPointerMayLackEvidence`); recovery accepts a rolled-forward prefix if
  and only if the journal held the new release's schema before (`ForwardedRecoversIff`).
- A secret that can touch the marker's text may survive redaction. For sets of secrets, not
  touching it is enough (`StreamedTextIsClean`); for one secret the exact condition is proved, from
  the secret's own bytes (`SecretSurvivesIff`). A secret inside the marker survives exactly when it
  was there (`SecretInsideMarkerSurvives`), while `<<` touches the marker and never survives
  (`TouchingIsNotSurviving`). For several secrets that touch the marker no exact condition is given.
- The stream takes secrets as they start, the whole-text passes take the longest everywhere first.
  They agree on every message when no secret can be cut short by a longer one that starts inside
  it (`StreamAgreesWithWhole`). For two secrets that is exactly the condition
  (`TwoSecretsAgreeIff`), and where it fails a whole family of messages disagrees
  (`OverlappingSecretsDisagree`). For three or more it is not shown to be necessary: a further
  secret can hide a difference that two of them make. One secret, even one that touches the marker,
  agrees everywhere exactly when it is the marker or cannot survive (`OneSecretAgreesIff`). The
  stream's own output never depends on how a message is cut (`StreamIgnoresFragmentation`).
- A payload that passes every field check is refused by the final comparison exactly when a
  server spells out the default approval mode (`FinalCheckRefusesSpelledDefaults`).
- A resolved plan is read back from its own payload exactly when no skill is named twice, every
  selected command is canonical and the account reference is valid; loading a role for a provider
  start (`load_provider`) checks none of the three (`ResolvedPlanReadsBackIff`,
  `RepeatedSkillIsNotReadBack`). The older `load` does refuse repeated skills.
- The length-delimited records of an accepted metadata block are its checked lines exactly when
  the block ends in a newline and no line end drops a carriage return (`RecordsAreLines`).
- A printed payload list reads back exactly when every frame fits the reader's bound
  (`PrintedPayloadsReadBack`).

## Model

| member | source | states |
|---|---|---|
| `DeploymentSafety.StoreNeverOutrunsPointer` | xtask/src/deploy.rs:235-527 | After every sequence of commands, single operations, crashes and migrations from a fresh prefix: the store's schema is supported by the release `current` names, `current` is one of the journal's two releases, journalled schemas are the releases' own, the journal's backup is never newer than the live store, and a pointer moved by a deployment is backed by complete evidence |
| `DeploymentSafety.ApplyKeepsInv` | xtask/src/deploy.rs:350-527 | Every event, enabled or not, keeps the whole invariant of disk, task and journal |
| `DeploymentSafety.DeployCrashPoints` | xtask/src/deploy.rs:350-422 | After any number of operations of a deployment `current` is the prior or the new release; once moved, the durable journal names both releases, both schemas and an existing backup that holds the home as the deployment found it |
| `DeploymentSafety.RecoverKeepsPointer` | xtask/src/deploy.rs:452-458 | In every reachable state with a pointer, recovery chooses the release the pointer already selects |
| `DeploymentSafety.RecoverCompletes` | xtask/src/deploy.rs:425-470 | In every reachable state, recovery is refused if and only if there is no journal, no schema in it, or a store newer than that schema; otherwise it leaves no temporary pointer, selects one of the journal's two releases, records it and changes nothing else |
| `DeploymentSafety.RecoveryIsStable` | xtask/src/deploy.rs:425-470 | However often recovery is issued, crashes at any operation and is issued again, with migrations in between, it selects the same release |
| `DeploymentSafety.CrashedDeployRecovers` | xtask/src/deploy.rs:350-470 | A deployment cut after any operation: recovery is admitted if and only if the second journal was written, and then it selects what was selected at the crash, or the new release if nothing was, and leaves the home untouched |
| `DeploymentSafety.ForwardedPointerMayLackEvidence` | xtask/src/deploy.rs:473-494 | A concrete run in which rolling forward a bare first journal moves the pointer without schemas, after which recovery refuses |
| `DeploymentSafety.ForwardedRecoversIff` | xtask/src/deploy.rs:425-494 | In every reachable state a roll-forward is refused if and only if there is no journal or the store is newer than its new release; otherwise it leaves exactly the new pointer and the marked journal, and recovery accepts that if and only if the journal already held the new release's schema |
| `DeploymentSafety.DeployCompletes` | xtask/src/deploy.rs:350-422 | Left alone, a deployment is refused with only its first journal written if and only if the store's schema is newer than the release's, and otherwise leaves exactly the new pointer, the committed journal and the backup |
| `DeploymentSafety.RollbackCompletes` | xtask/src/deploy.rs:501-527 | A rollback is refused if and only if there is no journal, one already rolled back, no prior release in it, or a store newer than that release; otherwise it restores each file its backup holds, keeps the others, returns the pointer and marks the journal |
| `DeploymentSafety.RollbackRestoresDeployedHome` | xtask/src/deploy.rs:350-527 | Deploy on any prefix, then any run without a new deployment in which the home may change in any way at any point (plus crashes, recoveries, roll-forwards and interrupted rollbacks), then a rollback: it is refused if and only if nothing was deployed before, a rollback completed meanwhile or the store is newer than the prior release; otherwise the prior release is selected, each file of deploy time has its deploy-time content, the whole home is back if and only if no new file appeared, and a second rollback is refused |
| `DeploymentSafety.CommittedDeployRollsBack` | xtask/src/deploy.rs:350-527 | A committed deployment over a prior release that supports the home rolls back to exactly that release and home |
| `DeploymentCuts.CutRollbackResumes` | xtask/src/deploy.rs:497-527 | In every reachable state, a rollback cut after any operation has moved the pointer only after restoring every file and written the journal only at the end; issued again it is refused if it was done and otherwise ends exactly where it would have ended |
| `DeploymentCuts.CutForwardResumes` | xtask/src/deploy.rs:473-494 | A roll-forward cut after any operation has written the journal only at the end; issued again it ends exactly where it would have ended |
| `DeploymentCuts.CutRecoveryResumes` | xtask/src/deploy.rs:425-470 | In every reachable state, a recovery cut after any operation has written the journal only at the end; issued again it ends exactly where it would have ended |
| `DeploymentCommands.Prefix.Switch` | xtask/src/deploy.rs:180-195 | Cut after any number of operations, the switch leaves exactly the unlink, link or renamed pointer state |
| `DeploymentCommands.Prefix.BackUp` | xtask/src/deploy.rs:254-275 | Cut after any number of operations, the backup holds exactly the files copied so far |
| `DeploymentCommands.Prefix.Deploy` | xtask/src/deploy.rs:350-422 | With power for any number of operations the prefix is exactly the disk of the step machine at that point; committed if and only if power lasts for all of them and the store is no newer than the release |
| `DeploymentCommands.Prefix.Commit` | xtask/src/deploy.rs:385-421 | The part after the second journal write refines the step machine at every cut |
| `DeploymentCommands.Prefix.Recover` | xtask/src/deploy.rs:425-470 | Refines the step machine at every cut; succeeds if and only if the journal holds a schema the store does not exceed and power lasts, and then no temporary pointer is left and the journal records the selected release |
| `DeploymentCommands.Prefix.RollForward` | xtask/src/deploy.rs:473-494 | Refines the step machine at every cut; succeeds if and only if there is a journal, the store is no newer than its new release and power lasts, and then that release is selected |
| `DeploymentCommands.Prefix.Rollback` | xtask/src/deploy.rs:501-527 | Refines the step machine at every cut; succeeds if and only if the journal is not rolled back, has a prior release the store does not exceed and power lasts, and then that release is selected |
| `Redaction.RedactedTextIsClean` | crates/agent-run-adapters/src/redact.rs:219-223 | For any secrets that cannot touch the marker, overlapping or not, none occurs in the replaced whole text |
| `RedactionStream.ScanResumes` | crates/agent-run-adapters/src/redact.rs:130-168 | Scanning the safe part now and the held-back part with whatever comes later is the same as scanning everything at once |
| `RedactionStream.StreamedTextIsClean` | crates/agent-run-adapters/src/redact.rs:108-174 | For any secrets that cannot touch the marker and any fragmentation, no secret occurs in the concatenated output, across joins and the final flush included |
| `RedactionAgreement.StreamAgreesWithWhole` | crates/agent-run-adapters/src/redact.rs:130-174 | For secrets that cannot touch the marker, every fragmentation outputs exactly the whole-text replacement: for one secret, for every message in which no occurrences overlap, and for every message when the secrets are kept longest first and none can be cut short by a longer one that starts inside it |
| `RedactionAgreement.StreamIgnoresFragmentation` | crates/agent-run-adapters/src/redact.rs:130-174 | For any secrets that cannot touch the marker, overlapping or not, two fragmentations of one message have the same output: all feeds together are one feed of the whole |
| `RedactionAgreement.HeldBackIsBounded` | crates/agent-run-adapters/src/redact.rs:134-168 | After every feed the held-back text is valid UTF-8 no longer than the longest secret minus one plus three bytes of boundary slack |
| `RedactionOrder.OverlappingSecretsDisagree` | crates/agent-run-adapters/src/redact.rs:130-174 | For every two secrets where the longer can start inside the shorter without also starting at its beginning, the message that overlaps them there is redacted differently by the stream and by the whole-text passes |
| `RedactionOrder.TwoSecretsAgreeIff` | crates/agent-run-adapters/src/redact.rs:130-174 | Two different secrets, longest first, have stream and whole-text outputs equal on every message and fragmentation if and only if wherever the longer can start inside the shorter, it starts at its beginning too |
| `RedactionOrder.OneSecretAgreesIff` | crates/agent-run-adapters/src/redact.rs:130-174 | One secret, touching the marker or not, has equal outputs on every message and fragmentation if and only if it is the marker itself or cannot survive redaction |
| `RedactionMarker.SecretInsideMarkerSurvives` | crates/agent-run-adapters/src/redact.rs:219-223 | A secret inside the marker's own text is in the redacted text if and only if it was in the text, for every text |
| `RedactionMarker.SecretSurvivesIff` | crates/agent-run-adapters/src/redact.rs:219-223 | Some text keeps a secret through redaction if and only if the secret lies in the marker, begins with one of its ends, or runs into it from plain text that does not bring its own match forward |
| `RedactionMarker.TouchingIsNotSurviving` | crates/agent-run-adapters/src/redact.rs:219-223 | A secret that can overlap the marker and still never survives |
| `RedactionBuffer.EarliestIsLeftmostLongest` | crates/agent-run-adapters/src/redact.rs:144-156 | The search over all literals finds the leftmost position where a secret starts and the longest secret there |
| `RedactionBuffer.StreamingRedactor.constructor` | crates/agent-run-adapters/src/redact.rs:101-106 | A fresh stream holds nothing back |
| `RedactionBuffer.StreamingRedactor.Feed` | crates/agent-run-adapters/src/redact.rs:130-168 | One fragment: output and held-back text are those of the specification, and the bound on what is held back is kept |
| `RedactionBuffer.StreamingRedactor.ScanLoop` | crates/agent-run-adapters/src/redact.rs:140-165 | The cursor loop emits exactly the leftmost-longest scan of the safe part and keeps the rest |
| `RedactionBuffer.StreamingRedactor.Finish` | crates/agent-run-adapters/src/redact.rs:171-174 | Flushes the held-back text redacted and leaves nothing pending |
| `RedactionBuffer.StreamingRedactor.Message` | crates/agent-run-adapters/src/redact.rs:126-174 | Any number of feeds and the final flush concatenate to the stream specification |
| `EngineRpc.DeliveryIsLossless` | crates/agent-run-adapters/src/io.rs:590-838 | Over every interleaving of arrivals, `next` calls and exchanges: events read plus the unread channel are the arrivals in order; delivered events plus backlog are the read ones in order minus correlated replies, denied requests and terminal events; the backlog stays within 64; no id is answered twice |
| `EngineRpc.PressureChangesNothing` | crates/agent-run-adapters/src/io.rs:744-765 | An exchange is refused for pressure if and only if the backlog is full, and then ids and queues are untouched; any other exchange uses exactly one id |
| `EngineRpc.ReceiveConserves` | crates/agent-run-adapters/src/io.rs:637-680 | Receiving takes at most the oldest channel event and loses none, whatever arrives while waiting |
| `EngineAnswers.ReceiveWakesFirst` | crates/agent-run-adapters/src/io.rs:637-680 | A receive ends at the first input that wakes it, with the oldest unread event, the end of a drained channel, an ownership failure or the deadline; without one it runs out having taken nothing |
| `EngineAnswers.ExchangeAnswers` | crates/agent-run-adapters/src/io.rs:744-838 | For every conduit and script: each event an exchange takes is answered, denied, kept or terminal by its own members; only the last can end it; a reply with its id is answered as replied if and only if it has a result and no error, as rejected with the code's first 64 characters if and only if it has an error with a code and no result, and as malformed otherwise; and no other event gives an answer |
| `EngineAnswers.ExchangeEnds` | crates/agent-run-adapters/src/io.rs:744-838 | Every exchange that was sent ends for a reason its script shows: a failed write, a full backlog, the deadline, the channel's end, an ownership failure put in front of the backlog, or an event it took |
| `EngineAnswers.QueuedReplyIsAnswered` | crates/agent-run-adapters/src/io.rs:766-838 | A reply in the channel behind any messages that leave room in the backlog answers the exchange after as many takes; the passed messages that are not requests are in the backlog in order and later ones are unread |
| `EngineAnswers.NextHandsOut` | crates/agent-run-adapters/src/io.rs:590-680 | `next` hands out the front of the backlog unless an ownership failure comes first, and with an empty backlog whatever its first waking input brings; the record of delivered events grows by exactly the event handed out and not otherwise |
| `EngineRpc.Process.ReceiveEvent` | crates/agent-run-adapters/src/io.rs:637-680 | The waiting loop ends in exactly the specified queues and result |
| `EngineRpc.Process.RpcExchange` | crates/agent-run-adapters/src/io.rs:744-826 | The exchange loop ends in exactly the queues, ids and disposition of the specification that `ExchangeAnswers` and `ExchangeEnds` describe |
| `EngineRpc.Process.NextItem` | crates/agent-run-adapters/src/io.rs:590-613 | `next` drains the backlog before the channel and leaves exactly the specified queues |
| `Ownership.PersistenceIsGapFree` | crates/agent-run-adapters/src/io.rs:332-508 | Over every sequence of installs, captures, checkpoints, cancellations and observed work: at most one write is in flight, it starts at the persisted offset, and the acknowledged writes joined in order are exactly the persisted prefix of the capture |
| `Ownership.SuccessfulCheckpointIsComplete` | crates/agent-run-adapters/src/io.rs:351-409 | A checkpoint that succeeds with a sink leaves the recorded revision equal to the current capture and every captured member acknowledged |
| `Ownership.FinalCheckpointJudgesItself` | crates/agent-run-adapters/src/io.rs:351-409 | With a root and working observation, what a failing final checkpoint reports is the refusal of the last write, with that write's stage and cause, and that write was started after the checkpoint began |
| `Ownership.StoredFailureIsReportedOnce` | crates/agent-run-adapters/src/io.rs:351-372 | The next checkpoint that is not final reports a failure stored earlier; whatever a later one reports is a write that was not over by then |
| `Ownership.CheckpointConverges` | crates/agent-run-adapters/src/io.rs:351-447 | With every write accepted, as many bounded deltas as the backlog needs make the checkpoint succeed |
| `OwnershipReports.CheckpointStartsOneWrite` | crates/agent-run-adapters/src/io.rs:351-431 | With nothing stored or in flight, a checkpoint succeeds at once without a sink or news, fails for a missing root, and otherwise starts one write of at most 512 members from the persisted offset under its own stage |
| `OwnershipReports.RefusalEndsCheckpoint` | crates/agent-run-adapters/src/io.rs:351-447 | Whatever the script so far, a write refused while a checkpoint waits for it ends that checkpoint with the write's stage and the refusal's cause and records nothing; a final checkpoint that found the write in flight goes on instead |
| `OwnershipReports.AcceptanceAdvancesCheckpoint` | crates/agent-run-adapters/src/io.rs:351-447 | A write accepted while a checkpoint waits for it is recorded with its revision, and the checkpoint goes on from there |
| `OwnershipReports.RefusedWriteIsReported` | crates/agent-run-adapters/src/io.rs:351-447 | For every script, a checkpoint with nothing stored that ends with one of its own writes refused in the log has failed with that write's stage and cause |
| `OwnershipReports.FirstFailureIsReported` | crates/agent-run-adapters/src/io.rs:434-508 | The first refused write or failed observation during observed work, whatever follows, is exactly what the next checkpoint that is not final reports |
| `OwnershipReports.AcceptanceIsRecorded` | crates/agent-run-adapters/src/io.rs:434-508 | A write accepted during observed work is recorded with its revision |
| `OwnershipReports.ObservingStartsWrites` | crates/agent-run-adapters/src/io.rs:470-508 | After any observed work with a sink, everything captured is recorded, or a write is in flight, or a failure is stored |
| `OwnershipReports.InstalledSinkGetsEverything` | crates/agent-run-adapters/src/io.rs:332-344 | Whatever was stored, in flight or persisted before, a newly installed sink is handed everything captured by enough accepted writes |
| `Ownership.Recorder.InstallSink` | crates/agent-run-adapters/src/io.rs:332-344 | Installing a sink forgets the old sink's progress |
| `Ownership.Recorder.Start` | crates/agent-run-adapters/src/io.rs:412-431 | Starts one delta at the persisted offset or reports the missing root or revision and changes nothing |
| `Ownership.Recorder.Finish` | crates/agent-run-adapters/src/io.rs:434-447 | Success records the delta's revision; a refusal is stored with the write's stage and its cause unless a failure is stored already, and advances nothing |
| `Ownership.Recorder.CheckpointReady` | crates/agent-run-adapters/src/io.rs:351-409 | The checkpoint's nested loops end in exactly the specified state and verdict, cancelled at any await or not |
| `Ownership.Recorder.ObserveWork` | crates/agent-run-adapters/src/io.rs:470-508 | Observing other work keeps at most one write going and stores its failure for a later checkpoint |
| `BrokerLane.RetryShape` | crates/agent-run-core/src/broker_writer.rs:322-372 | Which attempts a retry loop used: every answer but the last was unknown, storage unavailable or a transient refusal; a loop that leaves attempts unused stopped at an answer that is none of these; the outcome is the last answer if definitive, else the last unknown cause, else the permanent refusal it stopped at, else the expired deadline; and the diagnostics name the last refusal that was retried |
| `BrokerLane.OutcomeIsHonest` | crates/agent-run-core/src/broker_writer.rs:272-380 | For every answer sequence of a writer that keeps its word: committed only if the operation was applied, refused only if no attempt was, unknown exactly when some attempt was unknown and nothing definitive followed |
| `BrokerLane.OrdinalsAreOrdered` | crates/agent-run-core/src/broker_writer.rs:68-85 | Over every interleaving of callers, each lane's submitted ordinals never decrease and equal ordinals mean identical envelopes |
| `BrokerLane.OrdinalsNumberCallers` | crates/agent-run-core/src/broker_writer.rs:287-318 | Over every interleaving, ordinals are given out from one on without gaps: the submission with ordinal `o` carries the operation, deadline and payload of the `o`-th caller that got the lane's lock |
| `BrokerLane.LaneTakesTurns` | crates/agent-run-core/src/broker_writer.rs:272-318 | A freed lane admits the next caller, submits that caller's envelope under the next ordinal and admits nobody else meanwhile |
| `BrokerLane.ProducerLane.RunOperation` | crates/agent-run-core/src/broker_writer.rs:280-380 | One operation uses up exactly one ordinal, resubmits one envelope and ends as specified |
| `BrokerLane.BrokerWriter.OpenLane` | crates/agent-run-core/src/broker_writer.rs:68-85 | A name opened again gives the same lane; a new one starts at ordinal one and leaves the others alone |
| `Tar.ReadName` | xtask/src/tar_guard.rs:176-196 | The stripping loop computes the specified name of a header, which `NameJoinsPrefix`, `TextIff` and `NormalizeIff` describe |
| `Tar.ReadPathRecords` | xtask/src/tar_guard.rs:278-298 | The loop over metadata lines keeps the last accepted path record and refuses at the first bad one |
| `TarFields.OtherBytesAreRefused` | xtask/src/tar_guard.rs:151-162 | A number field with any byte besides octal digits and filler is refused, base-256 included |
| `TarExact.OctalIff` | xtask/src/tar_guard.rs:151-162 | A field reads as a number if and only if it is octal digits between filler, of that value and below 2^64; a blank field is zero |
| `TarExact.TextIff` | xtask/src/tar_guard.rs:165-172 | A field reads as text if and only if what comes before its first NUL is valid UTF-8 without control characters |
| `TarExact.NormalizeIff` | xtask/src/tar_guard.rs:176-196 | A path normalizes if and only if it is a relative spelling of a clean path, with any number of `./` in front and slashes behind, and then to that path; the root may be spelled empty, as dots or as `.` |
| `TarExact.ReadHeaderIff` | xtask/src/tar_guard.rs:240-265 | A block is read as a header if and only if its checksum field holds the sum of its bytes with that field blanked, its format is one of two and its size, mode and name are readable; it is read as exactly those |
| `TarExact.OneByteChangeIsRefused` | xtask/src/tar_guard.rs:240-256 | Changing any one byte of an accepted header outside its checksum makes it refused |
| `TarExact.EndIs` | xtask/src/tar_guard.rs:209-236 | An archive ends in two zero blocks and at most 1 MiB of zeros |
| `TarFields.NativeModesAreReviewed` | xtask/src/tar_guard.rs:331-349 | In native mode a member's mode passes if and only if it is permission bits only, group and others cannot write, and nothing but a directory or a shipped path is executable |
| `TarFields.OnlyAllowedKeys` | xtask/src/tar_guard.rs:300-314 | A metadata line that passes is its own length, a space, an inert key and a value; native archives carry time records only, so link, size and mode overrides never pass |
| `TarMetadata.LineOkIff` | xtask/src/tar_guard.rs:300-314 | A metadata line passes if and only if it is its own length, a space, a key, `=` and a value, where comments are for global and paths for extended blocks of source archives and times must be finite and not negative |
| `TarMetadata.LengthReadsBack` | xtask/src/tar_guard.rs:303-304 | A length reads back from its decimal digits, with leading zeros and a plus sign allowed |
| `TarMetadata.NonDigitIsNoLength` | xtask/src/tar_guard.rs:303-304 | Any other byte makes it no length |
| `TarMetadata.PathRecordReadsBack` | xtask/src/tar_guard.rs:275-314 | A written path record of the length it states, for any clean printable path however long, passes in source mode and leaves exactly that path for the next header |
| `TarFields.LinesRejoin` | xtask/src/tar_guard.rs:278-300 | The checked lines joined by newlines are the whole metadata block, its last newline supplied, if and only if no carriage return stands right before a newline |
| `TarFields.RecordsAreLines` | xtask/src/tar_guard.rs:300-314 | The records of an accepted metadata block as the pax format delimits them, by their own leading lengths, are exactly the checked lines if the block ends in a newline and drops no carriage return, and otherwise it is no list of records |
| `TarFields.LastPathRecordWins` | xtask/src/tar_guard.rs:277-299 | The path left for the next header is the last path record's, and none without one |
| `TarStream.ReadPadding` | xtask/src/tar_guard.rs:216-230 | However the reader cuts the trailing bytes, they pass if and only if they are zero and at most 1 MiB |
| `TarStream.TakeRecord` | xtask/src/tar_guard.rs:237-362 | One turn of the loop refuses exactly when the rest of the stream cannot be accepted |
| `TarStream.InspectStream` | xtask/src/tar_guard.rs:199-364 | The loop accepts exactly the streams the recursive inspection accepts |
| `TarArchive.RunIffArchive` | xtask/src/tar_guard.rs:237-362 | The running state (count, seen names, pending path, total) accepts a list of records exactly when it satisfies one state-free condition |
| `TarArchive.AcceptedIffArchive` | xtask/src/tar_guard.rs:199-364 | A stream is accepted if and only if it is a nonempty list of at most 10000 well-formed records with pairwise distinct member paths and at most 2 GiB in total, followed by two zero blocks and at most 1 MiB of zero padding |
| `TarArchive.SplitIsUnique` | xtask/src/tar_guard.rs:205-236 | There is only one way to cut a stream into such records and an end |
| `TarNames.NormalizedIsClean` | xtask/src/tar_guard.rs:182-195 | Every normalized name is empty or has no leading slash and no empty, `.` or `..` component |
| `TarNames.AcceptedMembersAreSafe` | xtask/src/tar_guard.rs:265-361 | Every member of an accepted archive is a file or an empty directory with permission bits only, under a clean path without control characters that no other member has; only a directory has the empty path |
| `TarPrinter.OctalReadsBack` | xtask/src/tar_guard.rs:151-162 | A number written in fixed-width octal with filler reads back |
| `TarPrinter.ChecksumField` | xtask/src/tar_guard.rs:377-379 | The written checksum is the one the inspector computes; a header sum always fits six octal digits |
| `TarPrinter.HeaderReadsBack` | xtask/src/tar_guard.rs:370-381 | Path, mode, size, kind and checksum of a written header read back as written, in both formats and with the path in the name field or split over name and prefix |
| `TarPrinter.NameJoinsPrefix` | xtask/src/tar_guard.rs:176-196 | Every block whose name and prefix fields are padded texts is named by prefix, slash and name if that is clean, or by the name alone without a prefix |
| `TarPrinter.PrintedArchiveAcceptedIff` | xtask/src/tar_guard.rs:199-381 | In either mode, the archive written for any list of members with clean paths, split or not, is accepted if and only if the list is nonempty, within both limits, names nobody twice, and holds only files with names and empty directories with permission bits; natively, nobody but the owner may write and only shipped files execute |
| `TarPrinter.SourceArchiveIsAccepted` | xtask/src/tar_guard.rs:199-381 | In source mode every nonempty list of distinct files and empty directories within the limits is accepted |
| `TarPrinter.WrittenArchiveIsAccepted` | xtask/src/tar_guard.rs:199-381 | In particular with the two zero blocks it is written with |
| `Sse.ReadAllIsFrames` | crates/agent-run-adapters/src/opencode.rs:437-491 | Reading chunk by chunk with emission and leftover bytes gives the frames, error and end of the plain byte automaton over the joined stream |
| `Sse.ChunkingIsInvisible` | crates/agent-run-adapters/src/opencode.rs:437-491 | Two splits of one byte stream into bounded chunks give the same frames, error and end |
| `SseDocument.StreamIsDocument` | crates/agent-run-adapters/src/opencode.rs:437-491 | Any bytes at all are lines ended by LF, CR or CRLF and an unended tail |
| `SseDocument.LogReadsTheDocument` | crates/agent-run-adapters/src/opencode.rs:437-491 | Whatever the bytes and however cut into bounded chunks, the log reads them as that document means: data lines in their three spellings collected, other lines ignored, a blank line dispatching the collected values without trailing empty ones, and the first oversized line, invalid text, undecodable payload or partial frame reported |
| `SseRoundTrip.PrintedPayloadsReadBack` | crates/agent-run-adapters/src/opencode.rs:437-491 | Any list of printable payloads written with one newline convention (LF, CR or CRLF), in any bounded chunks, reads back as exactly that list if and only if every frame fits the bound |
| `SseRoundTrip.ReadFrame` | crates/agent-run-adapters/src/opencode.rs:457-486 | One printed frame is read as its payload and leaves the reader ready for the next, or fails on the bound |
| `SseRoundTrip.EventLog.NextEvent` | crates/agent-run-adapters/src/opencode.rs:440-491 | Each call answers and leaves exactly what the specification pulls from the stream |
| `SseRoundTrip.EventLog.Consume` | crates/agent-run-adapters/src/opencode.rs:452-486 | The byte loop stops at the first frame and keeps the unread rest |
| `SseRoundTrip.EventLog.Accept` | crates/agent-run-adapters/src/opencode.rs:452-486 | One byte updates line, data and carriage-return flag as the automaton does |
| `Namespaces.NamespaceCheckIsExact` | crates/agent-run-adapters/src/opencode.rs:68-136 | The overlap check accepts a server list if and only if no server's permission pattern covers an action of another server or a native one |
| `Namespaces.ToolPrefix` | crates/agent-run-adapters/src/opencode.rs:125-136 | The prefix has only word characters and differs from the server's name exactly in an underscore for every other character |
| `ToolFilter.RuleIsInjective` | crates/agent-run-adapters/src/mcp_catalog.rs:58-64 | Accepted server and tool names are determined by the rule text built from them |
| `ToolFilter.ToolRuleDenies` | crates/agent-run-adapters/src/mcp_catalog.rs:134-138 | A tool rule denies exactly its own server's tool |
| `ToolFilter.ServerRuleDenies` | crates/agent-run-adapters/src/mcp_catalog.rs:124-127 | A whole-server rule denies exactly that server's tools, whatever they are called |
| `ToolFilter.CatalogIsDisjointUnion` | crates/agent-run-adapters/src/mcp_catalog.rs:243-315 | A discovered catalog comes from at most 64 pages with pairwise distinct cursors and is the strictly sorted disjoint union of their tool names |
| `ToolFilter.CatalogIff` | crates/agent-run-adapters/src/mcp_catalog.rs:243-315 | Discovery succeeds if and only if the answers lead through at most 64 pages by fresh cursors of at most 4096 bytes to a last one and list at most 4096 properly described tools, none twice |
| `ToolFilter.ReadPage` | crates/agent-run-adapters/src/mcp_catalog.rs:283-302 | The loop over one page adds its tools or fails at the first malformed or repeated one |
| `ToolFilter.ReadCatalog` | crates/agent-run-adapters/src/mcp_catalog.rs:243-315 | The pagination loop computes the specified catalog and ends within 64 pages |
| `ToolArgument.DeniedExactly` | crates/agent-run-adapters/src/mcp_catalog.rs:116-147 | The collected rules deny a tool of any server, selected or not and whatever the tool is called, if and only if a selected server of that name leaves it out of its allowlist |
| `ToolArgument.RenderEntries` | crates/agent-run-adapters/src/mcp_catalog.rs:148-158 | Appending comma-separated rules to an argument appends exactly those entries |
| `ToolArgument.FilterIsExactComplement` | crates/agent-run-adapters/src/mcp_catalog.rs:87-160 | A successful filter changes only the argument after the one deny flag; its entries are the old ones followed by strictly sorted rules, and the whole argument denies a tool of any server, selected or not and whatever the tool is called, if and only if it did before or a selected server of that name leaves the tool out of its allowlist |
| `ToolArgument.OthersKeepTheirTools` | crates/agent-run-adapters/src/mcp_catalog.rs:87-160 | A server that is not selected or not restricted loses nothing, and a restricted one keeps all it allows |
| `ToolArgument.WorkerKeepsItsTools` | crates/agent-run-adapters/src/mcp_catalog.rs:116-147 | The built-in worker server, whose name no selected server has, loses none of its tools |
| `ToolAcceptance.DenyServersIff` | crates/agent-run-adapters/src/mcp_catalog.rs:116-147 | The rules are collected if and only if every restricted server allows only proper tools that discovery finds and the rules stay within 4096 and 65536 bytes after each discovered server; they are then the ordered set of all rules |
| `ToolAcceptance.FilterIff` | crates/agent-run-adapters/src/mcp_catalog.rs:87-160 | With nothing restricted nothing changes; otherwise the filter succeeds if and only if every server is properly named and passes, the deny flag occurs once with an argument behind it and all limits hold, and then exactly that argument is extended by the ordered rules |
| `ToolArgument.LaunchPlan.ApplyFilters` | crates/agent-run-adapters/src/mcp_catalog.rs:87-160 | Success rewrites the arguments as specified; on any failure they are unchanged |
| `ToolArgument.LaunchPlan.Gather` | crates/agent-run-adapters/src/mcp_catalog.rs:116-147 | The loops over servers and tools collect the specified rules or stop at the same failure |
| `Roots.NormalizeInOrder` | crates/agent-run-config/src/profiles.rs:113-124 | The filtering loop computes the specified roots |
| `Roots.NormalizedIsMinimalAntichain` | crates/agent-run-config/src/profiles.rs:113-124 | Every kept root is an input, every input lies under a kept root, no kept root lies under another |
| `Roots.NormalizedIgnoresOrder` | crates/agent-run-config/src/profiles.rs:113-124 | Inputs with the same members normalize alike, whatever their order and repetitions |
| `Roots.NormalizedIsIdempotent` | crates/agent-run-config/src/profiles.rs:113-124 | Normalizing twice changes nothing more |
| `RolePlanRoundTrip.PrintedPlanReadsBack` | crates/agent-run-config/src/role_plan.rs:120-487 | Every well-formed plan is read back unchanged from its payload |
| `RolePlanRoundTrip.AcceptedPayloadIsCanonical` | crates/agent-run-config/src/role_plan.rs:193-487 | Every accepted payload is exactly what its plan prints, and that plan is well-formed |
| `RolePlanRoundTrip.ReadableIffWellFormed` | crates/agent-run-config/src/role_plan.rs:120-487 | Printing then reading returns the plan if and only if it is well-formed |
| `RolePlanRoundTrip.PrintingIsInjective` | crates/agent-run-config/src/role_plan.rs:120-184 | No two well-formed plans print alike |
| `RolePlanRoundTrip.PrintReadServer` | crates/agent-run-config/src/role_plan.rs:278-390 | A server object that is read prints back as itself if and only if it does not spell out the default approval mode |
| `RolePlanRoundTrip.FinalCheckRefusesSpelledDefaults` | crates/agent-run-config/src/role_plan.rs:470-487 | After every other check, the comparison with the plan's own print fails exactly when some server spells out the default approval mode |
| `RoleResolution.ResolveSkills` | crates/agent-run-config/src/role_plan.rs:591-616 | Resolves every skill in order or refuses at the first that cannot be |
| `RoleResolution.ResolveNamed` | crates/agent-run-config/src/role_plan.rs:631-644 | Resolves the profile's servers in order or refuses at the first bad or unknown name |
| `RoleResolution.JoinGlobals` | crates/agent-run-config/src/role_plan.rs:646-662 | Marking in place and appending yields the closed form: profile servers first, the first of each global name tagged as both, then the remaining globals in catalog order |
| `RoleResolution.ResolveRolePlan` | crates/agent-run-config/src/role_plan.rs:551-682 | Refuses as `AdmittedIff` and `RefusalTellsWhy` describe, or returns the plan that `ResolvedPlanIs` describes field by field |
| `ResolutionProperties.EffectiveToolsIntersect` | crates/agent-run-config/src/role_plan.rs:684-712 | The effective cap permits exactly what both caps permit, is strictly sorted, and is absent if and only if both are |
| `ResolutionProperties.ServerIdsAre` | crates/agent-run-config/src/role_plan.rs:631-662 | The resolved ids are the profile's list followed by the other global names in catalog order |
| `ResolutionProperties.EachServerOnce` | crates/agent-run-config/src/role_plan.rs:631-662 | Exactly the profile-named and global servers are listed, and each once if and only if the profile names none twice |
| `ResolutionProperties.SelectionTellsOrigin` | crates/agent-run-config/src/role_plan.rs:631-662 | Each server's tag tells whether profile, catalog or both selected it |
| `ResolutionProperties.ServersFollowDeclarations` | crates/agent-run-config/src/role_plan.rs:684-735 | Every server of a resolved plan has its declaration's transport, command, arguments, environment and approval mode; its cap permits a tool if and only if the declaration's cap does and the profile's filter for it, if any, lists it; the cap is absent if and only if both are, and is strictly sorted |
| `ResolutionProperties.ResearchHasNoServers` | crates/agent-run-config/src/profiles.rs:194-211 | A research role that resolves has no user server |
| `ResolutionProperties.RevisionIsOwnDigest` | crates/agent-run-config/src/role_plan.rs:680-681 | The recorded revision is the digest of the finished plan's own canonical members |
| `ResolutionProperties.ResolvedPlanReadsBackIff` | crates/agent-run-config/src/role_plan.rs:551-682 | A plan resolved from loaded inputs is read back from its payload if and only if no skill repeats, every selected command is canonical and the account reference is valid |
| `ResolutionProperties.RepeatedSkillIsNotReadBack` | crates/agent-run-config/src/role_plan.rs:591-616 | A concrete loaded profile that names one skill twice resolves, and its plan is refused on reading |
| `ResolutionOutcome.AdmittedIff` | crates/agent-run-config/src/role_plan.rs:551-644 | A profile resolves if and only if it passes every check: reserved name, canonical form, absolute skills, granted roots, authority, research confinement, and every skill, filter and server |
| `ResolutionOutcome.RefusalTellsWhy` | crates/agent-run-config/src/role_plan.rs:551-644 | Every refusal names a check that fails, and the first skill or server that fails it |
| `ResolutionOutcome.ResolvedPlanIs` | crates/agent-run-config/src/role_plan.rs:664-682 | Every field of a resolved plan: instructions and body as the prompt, the profile's own grants and constraints, its outermost roots in order, its skills with their revisions, the caller's authority and the digest of all the rest |
| `ResolutionOutcome.ReadResearchIsConfined` | crates/agent-run-config/src/role_plan.rs:454-487 | A payload read as a research plan cannot write, reads no external roots, has no server but the worker and only the research skill |
| `ResolutionOutcome.CanonicalCommandIff` | crates/agent-run-config/src/role_plan.rs:831-853 | A command is canonical if and only if it is the text of an absolute path whose components are neither empty, `.` nor `..` |
| `NativeCalls.Calls.Reserve` | crates/agent-run-adapters/src/native_owner.rs:128-145 | Answers and updates the table as specified |
| `NativeCalls.Calls.Finish` | crates/agent-run-adapters/src/native_owner.rs:147-151 | Replaces a held receipt and never the frozen digest; an unknown id changes nothing |
| `NativeCalls.GrantedAtMostOnce` | crates/agent-run-adapters/src/native_owner.rs:121-152 | Over every sequence of calls, each id is granted at most once |
| `NativeCalls.GrantsAreBounded` | crates/agent-run-adapters/src/native_owner.rs:121-152 | At most 1024 ids are ever granted |
| `NativeCalls.AnswerAfterGrant` | crates/agent-run-adapters/src/native_owner.rs:121-152 | After a grant, a request with the granted digest gets the latest finished receipt or unknown, any other gets a conflict, told by the past events alone |
| `NativeCalls.AnswerWithoutGrant` | crates/agent-run-adapters/src/native_owner.rs:121-152 | An id never granted is granted now if fewer than 1024 were, and refused for capacity otherwise |
| `NativeCalls.FullNeverReopens` | crates/agent-run-adapters/src/native_owner.rs:121-152 | Once full, whatever follows, the table grants nothing more and drops no id |
| `NativeCalls.AcceptanceWasReported` | crates/agent-run-adapters/src/native_owner.rs:75-118 | An accepted answer is always a receipt some finished call reported |
| `NativeCalls.ReplyNamesItsCall` | crates/agent-run-adapters/src/native_owner.rs:88-118 | Every reply carries the id that was asked about |

## Left out

- Deployment: failing verification, quiescence checks and I/O errors are the crash event; the store backup and each file copy or journal write are single atomic operations; explanatory journal text is not modelled.
- Redaction: `redact_value`, credential-field scanning, the diagnostic tail and the collecting of literals from the environment. Only `StreamAgreesWithWhole`, `OverlappingSecretsDisagree` and `TwoSecretsAgreeIff` use that literals are kept longest first; the other theorems hold in any order.
- Engine RPC: process spawning, pipes, signals and clocks; a deadline, a write failure or a closed pipe is an input of the script.
- Ownership: process inspection itself; a capture is a growing list, and the copy of the leader that each delta carries is not modelled.
- Broker lane: elapsed time and back-off lengths; whether the deadline has passed is part of each attempt.
- InspectStream: refuses without a message, because which of two messages is given can depend on how the trailing bytes are chunked; I/O errors, the gzip decoder and the deadline are not modelled.
- Tar metadata: whether a time value is a finite non-negative number is given by the caller. A path record applies to the very next header, as in the code, even when that header is another metadata block.
- Event stream: JSON text itself; which payloads are JSON values is a parameter.
- Tool filter: starting the discovery process; the pages it answers are a parameter. No selected server has the built-in worker's name because resolving a role refuses it (crates/agent-run-config/src/role_plan.rs:559).
- Role plans: JSON text, SHA-256 and `canonicalize`; object keys are an enumerated type with a case for any other text. Canonicalizing a path already canonical is taken to return it. Skill directories are looked up through a function that also covers overrides.
- NativeCalls: `Request::valid`, sockets and peer checks, which would only add a field-by-field predicate.
- Configuration loading, providers, launch arguments, release publication and the SQL store: long lists of independent checks or code around foreign systems.
