# LIVA persistence core: a verified model

LIVA keeps its hard state behind one writer thread. This project models that thread, the encrypted
fact store, the vector memory with its event projection queue, backup and restore, first-boot key
agreement, and four smaller machines beside them, and proves what each of them keeps over every
input, run and interleaving.

`dafny verify dfyconfig.toml` checks the whole project.

## How it is built

| files | models |
|---|---|
| `WriterSpec`, `WriterProofs`, `WriterCommands`, `DbActor` | the single-writer actor: queue, batches, transactions, replies, published graph |
| `GraphTables`, `CsrGraph` | the knowledge-graph tables and the in-memory graph that mirrors them |
| `Crypto` | the two ciphertext formats, concretely down to hex digits and separators |
| `Rekey`, `FactStore`, `PersonalData` | the two-phase re-encryption and the tables it works on |
| `VectorTables`, `Projection`, `MemoryStore`, `MemoryDatabase` | vector memory, event ledger, retry and dead-letter machine |
| `KeyAgreement` | processes racing for the key file, step by step |
| `BackupRestore` | the file system under backup and restore |
| `Fusion`, `JsonPatch`, `WakeGate`, `ActiveRecall` | rank fusion, configuration patches, wake-phrase search, recall turns |

Code that changes state is a class whose methods are proved equal to, or bounded by, a specification
on values; what the design promises is proved about that specification. Every SQL statement, BEGIN,
COMMIT, rename, write and read takes a step of a fault oracle, and results hold for every oracle.
Random bytes, clocks and fresh file names are parameters.

Assumed, each as a predicate on a record of functions and nowhere as an axiom: opening a message
sealed under the same key and nonce gives the plaintext, and a sealed message is 16 bytes longer than
its text (section 7 of NIST SP 800-38D); UTF-8 decoding inverts encoding; unsealing inverts sealing of
the key file and no strict prefix of a sealed blob opens to a secret of the right length; printed JSON
parses back. Key derivation (section 2 of RFC 5869) is an arbitrary function.

## What the proofs found

- `CsrGraph::add_edge` is called with `bidirectional = true` (liva-native-core/src/db/csr_graph.rs
  142-168), so two rows a->b and b->a of one relation share one weight in memory. The snapshot always
  mirrors the tables up to that, and shows each row's own weight if and only if reciprocal rows agree.
- The consumer swallows a failing rebuild (liva-native-core/src/memory_consolidation.rs 38-46): the
  published graph then stays behind the committed triples, until a later successful rebuild. It is
  harmless exactly when the snapshot showed the triples already.
- `AppendSessionEvent` answers Ok before COMMIT (liva-native-core/src/db_actor.rs 598-604); its Ok is
  wrong exactly when a later operation of its group or COMMIT fails.
- A fact that is plain text of three colon-separated parts, such as a time of day, is counted as
  undecryptable by the rekey (liva-native-core/src/db.rs 1345-1359); it is left as it is.
- A published read snapshot has no adjacency lists and could not be extended; the pointer comparison
  guarantees that mutations are never applied to one.
- Rekeying facts overwrites ciphertext that only an extra key opens without a backup row; its meaning
  is kept, which is what the ledger of `FactStore` asks.
- A restore without an old target leaves stale `-wal` and `-shm` files beside the new database.
- A question may follow an unanswered question of the same session, but only after 600 s.
- The drain bound needs the fixed order of `ORDER BY timestamp, eventId`; the front of the queue is
  then tried by every batch.

## Model

| member | source | states |
|---|---|---|
| `WriterProofs.EveryRunRefines` | liva-native-core/src/db_actor.rs:801-883 | In every run of sends and rounds, whatever fails and however the queue is cut: commands taken plus commands waiting are exactly those sent, in order; the database is the committed commands applied one by one; every entry answered each of its channels once. |
| `WriterProofs.SnapshotMirrorsTables` | liva-native-core/src/db_actor.rs:677-732 | After every step of every run the published graph mirrors the committed node and edge tables (same nodes and labels, an arc exactly for a live row in either direction, with the weight of such a row), unless the last rebuild of the projection consumer failed. |
| `WriterProofs.FailedRebuildHarmlessIff` | liva-native-core/src/memory_consolidation.rs:31-50 | When that rebuild fails after COMMIT, readers still see a mirror of the tables if and only if the snapshot already showed every extracted triple (reciprocal rows agreeing). |
| `WriterProofs.FailedRebuildDiverges` | liva-native-core/src/memory_consolidation.rs:38-46 | A run of a fresh actor, one projection batch with a failing rebuild, after which the published graph does not mirror the committed tables. |
| `WriterProofs.EveryChannelAnsweredOnce` | liva-native-core/src/db_actor.rs:148-262 | In every run, whatever fails, each reply channel of each command taken off the queue is answered exactly once. |
| `WriterCommands.EveryWaiterIsAnswered` | liva-native-core/src/db_actor.rs:148-262 | In every run, whatever fails: a channel is answered if and only if some command taken carries it, as its reply (any command but ReinforceMemories) or as the blocking channel of a Flush, InsertL3Node or InsertL3Edge. |
| `WriterCommands.AnswerTellsOutcome` | liva-native-core/src/db_actor.rs:622-747 | Whoever waits on a command of a committed group has been sent Ok; of a failed one, Err, unless a session event answers on the same channel. |
| `WriterProofs.OkImpliesCommitted` | liva-native-core/src/db_actor.rs:622-747 | In every run each Ok belongs to a committed entry, except the early Ok of AppendSessionEvent. |
| `WriterProofs.FlushIsBarrier` | liva-native-core/src/db_actor.rs:1092-1103 | When the Ok of a Flush is sent, every command taken before it has been answered on all its channels, and each earlier Ok is committed. |
| `WriterCommands.FlushAnswersItsWaiters` | liva-native-core/src/db_actor.rs:427-429 | At that place of the log whoever waits on the Flush, on either of its channels, is sent Ok, and everybody waiting on a command in front of it has an answer before. |
| `WriterProofs.FlushBarrierInGroup` | liva-native-core/src/db_actor.rs:734-736 | Inside one committed group the Ok of a Flush comes after the answers of all commands in front of it. |
| `WriterProofs.BatchingRefinesSerial` | liva-native-core/src/db_actor.rs:749-796 | When nothing fails and the queue is empty, database and published graph are those of applying all commands singly in the order sent, for every way the queue was cut into rounds, batches and groups. |
| `WriterProofs.GroupIsAtomic` | liva-native-core/src/db_actor.rs:622-747 | A group adds one entry with exact answers; if BEGIN, an operation or COMMIT fails, database, builder and published graph are untouched. |
| `WriterProofs.CommitsIffNothingFails` | liva-native-core/src/db_actor.rs:633-680 | A group commits if and only if its commands succeed one by one and none of the ticks it took itself failed, whatever fails elsewhere. |
| `WriterCommands.OutcomeIs` | liva-native-core/src/db_actor.rs:633-746 | BEGIN, every statement and COMMIT take one tick each; whether a group commits, or fails at BEGIN or COMMIT, is decided exactly by the first failing tick or violated constraint. |
| `WriterCommands.FailsAtIff` | liva-native-core/src/db_actor.rs:645-675 | A group fails at command k if and only if BEGIN succeeds, the commands before k go through and k does not. |
| `WriterProofs.GroupAnswered` | liva-native-core/src/db_actor.rs:645-746 | For each way a transaction ends, the answers cover every channel of the group exactly once; Ok appears exactly where the outcome allows it. |
| `WriterProofs.AppendOkIsWrongIff` | liva-native-core/src/db_actor.rs:585-618 | For a group holding an AppendSessionEvent: its Ok is sent if and only if BEGIN and its insert succeeded, the event is stored if and only if the group commits, so Ok without the event is exactly a later failing operation or COMMIT. |
| `WriterProofs.AppendAnsweredOkIff` | liva-native-core/src/db_actor.rs:585-618 | However the transaction ends, that command has been answered Ok exactly when the loop got past it. |
| `WriterProofs.AppendAnswersTooEarly` | liva-native-core/src/db_actor.rs:585-618 | A fresh actor that is sent one session event and whose COMMIT fails: the log holds Ok, the database is as before. |
| `WriterProofs.RunTakes` | liva-native-core/src/db_actor.rs:842-883 | Rounds take commands off the queue in order, none lost, duplicated or reordered. |
| `WriterProofs.PublishKeepsSync` | liva-native-core/src/db_actor.rs:681-732 | The pointer comparison is sound: after publishing, either the cell holds what the actor stored last and the builder is its extendable original, or somebody else stored an extendable graph. |
| `WriterProofs.GroupKeepsInv` | liva-native-core/src/db_actor.rs:622-747 | A group keeps the invariant of every run: replies accounted for, database and graph equal to the serial execution of what committed. |
| `WriterProofs.AloneKeepsInv` | liva-native-core/src/db_actor.rs:761-783 | CheckpointWal and Execute, run outside the ambient transaction, keep the same invariant. |
| `WriterCommands.StandaloneOutcome` | liva-native-core/src/db_actor.rs:781-783 | A checkpoint changes nothing and succeeds when its one tick does; an Execute is committed exactly when its job succeeds. |
| `WriterCommands.JobSucceedsIff` | liva-native-core/src/memory_consolidation.rs:31-50 | A job succeeds if and only if none of its own ticks fails; otherwise tables and graph are as before. |
| `WriterCommands.ProjectionRebuilds` | liva-native-core/src/memory_consolidation.rs:31-50 | A projection batch that extracted triples commits exactly those; the published graph is then rebuilt from the tables, and is stale if and only if the rebuild itself failed. |
| `WriterCommands.StoreWritesOneRow` | liva-native-core/src/db_actor.rs:352-355 | Any other job writes its row and leaves the published graph alone. |
| `WriterProofs.RunOpsMeansSerial` | liva-native-core/src/db_actor.rs:645-675 | An operation loop reaches its end if and only if the commands succeed one after the other and none of its own ticks fails; it has then computed the serial result. |
| `WriterProofs.TriplesStmtsInsert` | liva-native-core/src/db_actor.rs:477-503 | The statements of a triple batch insert exactly those triples and can violate no foreign key. |
| `WriterCommands.TurnCommandEffects` | liva-native-core/src/db_actor.rs:274-348 | Persisting turns succeeds if and only if their ids are new and distinct; each then has a pending event and its content, and no other row changes. |
| `WriterCommands.BumpCommandEffects` | liva-native-core/src/db_actor.rs:359-430 | ReinforceMemories, UpdateFactRecallStats and TouchFactAccess count once per mention on known ids, ignore unknown ones, and change nothing else. |
| `WriterCommands.OtherCommandEffects` | liva-native-core/src/db_actor.rs:379-429 | SaveAgentCheckpoint writes its row, AppendSessionEvent appends its event, Flush does nothing. |
| `WriterCommands.GraphCommandEffects` | liva-native-core/src/db_actor.rs:511-584 | InsertL3Node sets a label; InsertL3Edge needs both of its ends and then leaves a live edge of its weight. |
| `WriterProofs.SerialKeepsMirror` | liva-native-core/src/db_actor.rs:431-584 | Applying any commands one by one keeps graph and tables mirrored. |
| `WriterProofs.CutStops` | liva-native-core/src/db_actor.rs:847-875 | A round takes at least one and at most 50 commands, none behind the first Flush or Execute, and stops only at 50, at one of those, or when nothing more waits. |
| `WriterCommands.OneGroup` | liva-native-core/src/db_actor.rs:760-796 | Commands with no CheckpointWal or Execute among them form one transaction group. |
| `WriterCommands.GroupsAroundStandalone` | liva-native-core/src/db_actor.rs:762-785 | A CheckpointWal or Execute ends the group in front of it, runs alone, and the rest starts afresh. |
| `WriterCommands.RoundProcesses` | liva-native-core/src/db_actor.rs:822-883 | A round with a connection processes exactly what it cut off the queue; without one it rejects everything waiting with errors and touches nothing else. |
| `DbActor.Actor.Respond` | liva-native-core/src/db_actor.rs:254-262 | The loop over channels logs the result once on each, in order. |
| `DbActor.Actor.RejectAll` | liva-native-core/src/db_actor.rs:148-239 | Rejecting commands logs an error on every channel they carry, in order. |
| `DbActor.Actor.RunStatements` | liva-native-core/src/db_actor.rs:264-584 | The statement loop ends in the state and at the point the specification run does. |
| `DbActor.Actor.ExecuteWriteOperation` | liva-native-core/src/db_actor.rs:264-620 | Inside a transaction a command runs its statements; AppendSessionEvent answers at once and hands back no channel, every other command answers nothing yet. |
| `DbActor.Actor.RunOperations` | liva-native-core/src/db_actor.rs:645-675 | The operation loop stops at the first failure with the pending channels and mutations of exactly the commands before it. |
| `DbActor.Actor.RunTransaction` | liva-native-core/src/db_actor.rs:633-746 | BEGIN, loop, COMMIT or restore: the tables are those of the outcome, the log is completed by the pending channels. |
| `DbActor.Actor.RunOperation` | liva-native-core/src/db_actor.rs:645-656 | One turn of the loop: on success the pending channels and mutations grow by exactly this command, on failure they stay. |
| `DbActor.Actor.JobTransaction` | liva-native-core/src/memory_consolidation.rs:102-109 | A job's statements between BEGIN and COMMIT, or the tables restored. |
| `DbActor.Actor.PublishMutations` | liva-native-core/src/db_actor.rs:681-732 | Re-synchronise by pointer, replay, publish: the actor ends in the state the specification of publishing gives. |
| `DbActor.Actor.ProcessTransactionalBatch` | liva-native-core/src/db_actor.rs:622-747 | The whole new state of the actor after a group is the specified one. |
| `DbActor.Actor.PerformJob` | liva-native-core/src/memory_consolidation.rs:31-50 | A job runs in its own transaction and then rebuilds the shared graph, as specified. |
| `DbActor.Actor.RebuildCell` | liva-native-core/src/memory_consolidation.rs:38-46 | A rebuild replaces the shared graph, or leaves it and marks it stale. |
| `DbActor.Actor.ProcessStandalone` | liva-native-core/src/db_actor.rs:781-783 | A standalone command ends in the specified state, answered at once. |
| `DbActor.Actor.ProcessWriteBatch` | liva-native-core/src/db_actor.rs:749-796 | The loop that cuts a batch around standalone commands ends in the specified state. |
| `DbActor.Actor.Drain` | liva-native-core/src/db_actor.rs:847-875 | The drain loop takes the specified prefix of the queue and leaves the rest. |
| `DbActor.Actor.Turn` | liva-native-core/src/db_actor.rs:822-883 | One turn of the thread ends in the specified state, with or without a connection. |
| `DbActor.KeptIsEnough` | liva-native-core/src/db_actor.rs:648-655 | Replaying only the mutations the loop kept gives the graph of all commands. |
| `GraphTables.NodeKeepsMirror` | liva-native-core/src/db/csr_graph.rs:116-140 | Adding a node to graph and table keeps them mirrored. |
| `GraphTables.EdgeKeepsMirror` | liva-native-core/src/db/csr_graph.rs:142-168 | Adding an edge in both directions keeps the mirror and the foreign keys. |
| `GraphTables.TriplesKeepMirror` | liva-native-core/src/db_actor.rs:689-716 | So does replaying a batch of triples. |
| `GraphTables.RebuildMirrors` | liva-native-core/src/db/csr_graph.rs:262-312 | Rebuilding from the tables mirrors them in any row order: a later successful rebuild repairs any divergence. |
| `GraphTables.ExactIffReciprocalsAgree` | liva-native-core/src/db/csr_graph.rs:142-168 | A mirror shows every live row its own weight if and only if reciprocal rows carry equal weights. |
| `GraphTables.MirrorIsUnique` | liva-native-core/src/db/csr_graph.rs:262-312 | When reciprocal rows agree, the incremental and the rebuilt graph are the same. |
| `GraphTables.ReciprocalRowsDiverge` | liva-native-core/src/db/csr_graph.rs:142-168 | Concrete tables where they disagree and the two graphs differ. |
| `GraphTables.LeftBehind` | liva-native-core/src/memory_consolidation.rs:38-46 | A graph left alone while triples are committed still mirrors the tables exactly when it already shows them (reciprocal rows agreeing). |
| `CsrGraph.CsrGraph.AddNode` | liva-native-core/src/db/csr_graph.rs:116-140 | The index-based lists denote the abstract graph with the node added or relabelled; the slot returned is the node. |
| `CsrGraph.CsrGraph.AddOrUpdateAdjacency` | liva-native-core/src/db/csr_graph.rs:170-185 | Updating or appending an arc in the lists is one arc update of the denoted graph. |
| `CsrGraph.CsrGraph.AddEdge` | liva-native-core/src/db/csr_graph.rs:142-168 | Missing ends are created, both directions stored: the lists denote the graph with the edge added. |
| `CsrGraph.CsrGraph.CompileRow` | liva-native-core/src/db/csr_graph.rs:199-236 | Appends one row: its targets and relations in order, with normalized weights. |
| `CsrGraph.CsrGraph.CompileCsr` | liva-native-core/src/db/csr_graph.rs:187-242 | The flat arrays hold exactly the adjacency lists, row by row, with normalized weights; the denoted graph is unchanged. |
| `CsrGraph.CsrGraph.ToReadSnapshot` | liva-native-core/src/db/csr_graph.rs:244-260 | The snapshot has the compiled arrays and labels and no adjacency lists. |
| `CsrGraph.RowIsStochastic` | liva-native-core/src/db/csr_graph.rs:199-236 | The normalized weights of every non-empty row are non-negative and sum to one. |
| `CsrGraph.SharesAreProportional` | liva-native-core/src/db/csr_graph.rs:208-222 | Shares are in proportion to the positive weights; where no weight is positive all arcs are equal. |
| `Crypto.EncryptRoundTrip` | liva-native-core/src/crypto.rs:143-171 | For every text (empty included), salt and nonce for which the cipher itself succeeds: encrypt prints something, which decrypts to the text, is protected by the key and reads back. |
| `Crypto.EncryptSucceedsIff` | liva-native-core/src/crypto.rs:143-171 | Encrypt succeeds if and only if the cipher does: no text is refused for any other reason. |
| `Crypto.EncryptShape` | liva-native-core/src/crypto.rs:143-171 | The printed form is v2: and exactly four hex fields, 102 characters and two more for every byte of the text; splitting finds those four. |
| `Crypto.DecryptMeaning` | liva-native-core/src/crypto.rs:260-307 | A ciphertext-shaped text is opened under the key of its own salt, or the padded passphrase, tag behind cipher bytes; a failed authentication and bytes that are no text are told apart. |
| `Crypto.V1RoundTrip` | liva-native-core/src/crypto.rs:277-289 | Well-formed v1 text sealed with the padded key reads back and is never taken for current ciphertext. |
| `Crypto.ReadFactFailsClosed` | liva-native-core/src/crypto.rs:221-231 | A text is locked if and only if it is shaped like ciphertext and fails to open; ciphertext is shown only as the plaintext its key authenticates. |
| `Crypto.FormatErrorsAreShapeErrors` | liva-native-core/src/crypto.rs:252-289 | NotEncrypted and BadFormat are returned exactly for texts that are not shaped like either format. |
| `Crypto.FormatErrorsIgnoreTheKey` | liva-native-core/src/crypto.rs:252-289 | Two keys always agree on whether a text is malformed. |
| `Crypto.V1IsNotV2` | liva-native-core/src/crypto.rs:252-257 | No v1 text carries the v2 prefix. |
| `Crypto.HexRoundTrip` | liva-native-core/src/crypto.rs:156-170 | Hex decoding inverts hex encoding. |
| `Crypto.HexEncodeDigits` | liva-native-core/src/crypto.rs:164-170 | Every byte is printed as its high and its low digit in lower case. |
| `Crypto.HexDigits` | liva-native-core/src/crypto.rs:265-268 | Exactly the 22 hex digits of either case are read, each at its value. |
| `Crypto.HexDecodes` | liva-native-core/src/crypto.rs:260-289 | Hex decoding succeeds exactly on even-length hex text, with half as many bytes. |
| `Crypto.SplitJoin` | liva-native-core/src/crypto.rs:260-264 | Joining what splitting found gives the text back; no part holds a separator. |
| `Crypto.JoinSplit` | liva-native-core/src/crypto.rs:277-281 | Splitting a join of separator-free parts finds exactly those parts. |
| `Crypto.Engine.LegacyKey` | liva-native-core/src/crypto.rs:108-116 | The v1 key is 32 bytes: the beginning of the passphrase, or all of it followed by zero bytes. |
| `Crypto.LawsAreSatisfiable` | liva-native-core/src/crypto.rs:133-141 | Primitives meeting the assumed laws exist, so the results are not empty. |
| `Rekey.DecisionIff` | liva-native-core/src/db.rs:1335-1361 | Under either policy the code rewrites a value if and only if live does not protect it and some key opens it (personal data: or it is no ciphertext at all), and gives it up if and only if no key opens it and it starts with v2: or, for facts, has three colon-separated parts, for personal data, is ciphertext. |
| `Rekey.DecisionMeaning` | liva-native-core/src/db.rs:1335-1352 | A rewrite carries the meaning of the old value: the plaintext some key authenticates, or the text itself when it is no ciphertext; nothing is encrypted twice. |
| `Rekey.TimeOfDayCountsAsLocked` | liva-native-core/src/db.rs:1345-1359 | The plain fact 12:34:56 is counted as undecryptable, though it is no ciphertext and reads back. |
| `Rekey.OpenableEndsCurrent` | liva-native-core/src/db.rs:1309-1393 | A value live or any extra key opens ends as v2 text that live opens to a plaintext one of them saw; a fact no key opens ends identical. |
| `Rekey.FindOpenerFinds` | liva-native-core/src/db.rs:1346-1352 | The search over extra keys finds one if and only if some key opens the value. |
| `Rekey.FindOpenerIsFirst` | liva-native-core/src/db.rs:1348-1350 | The key found is the first that opens the value. |
| `Rekey.Scan` | liva-native-core/src/db.rs:1316-1363 | The scan plans exactly the rows that need it (some key opens them and live does not protect them; for personal data also plaintext), each with current ciphertext of what the row means, and its count is exactly the rows to be given up. |
| `Rekey.ApplyConditionally` | liva-native-core/src/db.rs:1365-1390 | Each row changes only if it still holds what was scanned; the count is the number of rows changed. |
| `Rekey.RekeyLosesNothing` | liva-native-core/src/db.rs:1309-1393 | Whatever another writer did between the phases: a row changes if and only if it was scanned, still holds that value, is not protected by live and is opened by some key (personal data: or is plaintext), and then live opens the new text to what the old one meant. |
| `Rekey.RekeySettles` | liva-native-core/src/db.rs:1309-1393 | Afterwards no row is left that some key opens and live does not protect, and the same rows stay locked. |
| `Rekey.RekeyTwice` | liva-native-core/src/db.rs:1309-1393 | A second quiet run changes nothing and reports zero. |
| `FactStore.Merged` | liva-native-core/src/db.rs:1251-1270 | Under the upsert access time and count never decrease, creation time stays, strength moves only to a deliberate positive value. |
| `FactStore.OverwriteKeepsLedger` | liva-native-core/src/db.rs:1221-1270 | Replacing a value readable under the call's key, or just backed up, keeps every value ever stored accounted for. |
| `FactStore.RekeyKeepsLedger` | liva-native-core/src/db.rs:1309-1393 | Applying a sound plan loses no value: what it replaces was readable to the call. |
| `FactStore.FactTable.SetFactInner` | liva-native-core/src/db.rs:1213-1289 | Backup of a locked value, then upsert; every value ever overwritten stays readable to its overwriter or in the backups. |
| `FactStore.FactTable.SetFact` | liva-native-core/src/db.rs:1190-1211 | On success the stored text reads back as the value; on failure with an own transaction nothing changed; access statistics never decrease. |
| `FactStore.FactTable.SetFactInTransaction` | liva-native-core/src/db.rs:1204-1207 | BEGIN to COMMIT, or every table restored. |
| `FactStore.FactTable.ApplyRekey` | liva-native-core/src/db.rs:1365-1393 | The second phase on whatever the table holds by then keeps the ledger and counts the rows changed. |
| `FactStore.FactTable.RekeyFacts` | liva-native-core/src/db.rs:1309-1393 | The complete quiet rekey: every fact some key opens ends as current ciphertext of its meaning, all others are identical, both counters exact, ledger complete. |
| `PersonalData.SealedOrLocked` | liva-native-core/src/db.rs:1421-1444 | After a run each row is current ciphertext of what it meant, or the untouched original that is ciphertext (or starts like it) and that no key opens; old plaintext always ends sealed and live opens it to exactly that text. |
| `PersonalData.EveryTurnIsSettled` | liva-native-core/src/db.rs:1477-1524 | After a complete run every row of type conversation_turn is settled in that sense, keeps its other columns and is in FTS no more. |
| `PersonalData.EveryCheckpointIsSettled` | liva-native-core/src/db.rs:1453-1475 | And so is every agent checkpoint. |
| `PersonalData.OtherRowsStay` | liva-native-core/src/db.rs:1501-1524 | Rows of any other type keep content and FTS entry; the FTS rows removed are those of conversation turns. |
| `PersonalData.PersonalRekeyTwice` | liva-native-core/src/db.rs:1416-1535 | A second run changes nothing, reports zero rekeyed and zero FTS rows removed, and the same number locked. |
| `PersonalData.RekeyRestoresAgreement` | liva-native-core/src/db.rs:1519-1524 | A store whose full-text index still held conversation rows agrees with its metadata afterwards. |
| `PersonalData.TurnPlanOutcome` | liva-native-core/src/db.rs:1512-1524 | Updates addressed by row id alone change conversation rows only, each as planned. |
| `MemoryDatabase.Database.ApplyPersonalRekey` | liva-native-core/src/db.rs:1501-1525 | The second phase on whatever the tables hold by then: conditional changes only, exact report, all or nothing. |
| `MemoryDatabase.Database.RekeyPersonalData` | liva-native-core/src/db.rs:1416-1535 | The complete quiet run meets the whole outcome on both tables; on error nothing changed. |
| `VectorTables.IndexAgreement` | liva-native-core/src/db.rs:1678-1793 | After any run of upserts, type changes of one vec_id included: the dense index has exactly the metadata rows, the full-text index exactly the other-than-conversation rows with equal content, and each row reads back as the last accepted write (conversation content stored as ciphertext), dates from the first and counts them. |
| `VectorTables.UpsertKeepsAgreement` | liva-native-core/src/db.rs:1722-1790 | One upsert keeps the agreement of the three tables. |
| `VectorTables.UpsertTouchesOneRow` | liva-native-core/src/db.rs:1722-1790 | Only the row of the upserted vec_id changes. |
| `VectorTables.ShownAfterStore` | liva-native-core/src/db.rs:1692-1698 | Conversation content is stored as current ciphertext and yet shown as given. |
| `VectorTables.AcceptedIff` | liva-native-core/src/db.rs:1691-1698 | A write is refused only for a vector of other than 384 dimensions, or when the cipher fails on a conversation turn. |
| `MemoryDatabase.Database.UpsertMeta` | liva-native-core/src/db.rs:1722-1767 | INSERT OR IGNORE, SELECT, UPDATE and DELETE leave the metadata of a complete upsert and a free slot in the dense index. |
| `MemoryDatabase.Database.UpsertIndexes` | liva-native-core/src/db.rs:1769-1787 | The dense insert meets no taken row id; FTS gains or loses exactly that row. |
| `MemoryDatabase.Database.UpsertVector` | liva-native-core/src/db.rs:1678-1793 | On success the row reads back and the tables agree; a wrong dimension, a failed encryption, or a failed statement in an own transaction changes nothing. |
| `MemoryDatabase.Database.PersistTurn` | liva-native-core/src/db.rs:1800-1826 | Event and vector rows as one unit; on success the turn joins those that can never be retried; a failure in an own transaction changes nothing. |
| `MemoryStore.PersistedTurnMatches` | liva-native-core/src/db.rs:1828-1866 | A turn persisted with its event matches it, whatever row the vec_id had before. |
| `MemoryStore.UpsertKeepsTurns` | liva-native-core/src/db.rs:1678-1793 | Upserting another vec_id leaves such turns matching. |
| `MemoryStore.TurnConsolidatedOnFirstVisit` | liva-native-core/src/memory_consolidation.rs:131-194 | A persisted, not re-upserted turn is consolidated by the first batch that visits it and is never retried. |
| `MemoryStore.InsertKeepsOrder` | liva-native-core/src/db.rs:1842-1848 | A new event keeps the index on (timestamp, eventId) strictly ordered. |
| `MemoryStore.IndexIsSorted` | liva-native-core/src/memory_consolidation.rs:113-117 | That index is sorted by timestamp, then eventId. |
| `MemoryStore.LexLessIff` | liva-native-core/src/memory_consolidation.rs:115-115 | Event ids are compared by their first difference, a prefix first. |
| `MemoryStore.MatchesIffWritten` | liva-native-core/src/memory_consolidation.rs:256-281 | After any run of upserts an event matches its row if and only if the last accepted write of its id was a conversation turn of its domain and category naming that id as its one source. |
| `MemoryStore.TriplesFromTheWordsSaid` | liva-native-core/src/memory_consolidation.rs:142-164 | After any run of upserts the triples of a turn are extracted from the plain content of its last accepted write. |
| `MemoryStore.ConsolidationLearnsWhatWasSaid` | liva-native-core/src/memory_consolidation.rs:132-194 | Consolidating a turn adds to the graph exactly the triples extracted from the words it was written with. |
| `MemoryStore.LockedTurnAddsNothing` | liva-native-core/src/memory_consolidation.rs:143-156 | A turn this key cannot read is consolidated without adding anything. |
| `Projection.BatchMovesEach` | liva-native-core/src/memory_consolidation.rs:96-254 | A batch visits the first pending events in index order, at most the clamped size of them, and moves each exactly once: consolidated if and only if its projection matches, dead-lettered if and only if that was the last retry; counters add up; the worker's checkpoint grows by what was processed. |
| `Projection.BatchAdds` | liva-native-core/src/memory_consolidation.rs:131-226 | A batch adds to the graph the triples of exactly the matching events and to the dead letters exactly the events out of retries, in order, and its counters say how many of each. |
| `Projection.RunKeepsLedger` | liva-native-core/src/memory_consolidation.rs:96-254 | Over any run: pending events have retries left, dead-lettered events have exactly one dead letter and others none, finished events never change, every checkpoint is the total processed. |
| `Projection.VisitKeepsSound` | liva-native-core/src/memory_consolidation.rs:131-226 | One visit keeps those invariants. |
| `Projection.DrainBound` | liva-native-core/src/memory_consolidation.rs:96-227 | n pending events are all consolidated or dead-lettered after 3 * ceil(n / b) batches of at least b, whichever projections are missing, appear or vanish in between. |
| `Projection.ThreeBatches` | liva-native-core/src/memory_consolidation.rs:196-226 | Any three batches shorten the queue by at least the smaller of b and its length. |
| `Projection.FrontIsTried` | liva-native-core/src/memory_consolidation.rs:110-128 | What stands within a batch size of the front is tried by every batch, and nothing is put in front of it. |
| `Projection.CeilDivIsCeiling` | liva-native-core/src/memory_consolidation.rs:110-128 | The bound's division is the ceiling. |
| `Projection.WindowIsFirstPending` | liva-native-core/src/memory_consolidation.rs:110-128 | A batch selects an event exactly when it is pending and fewer pending ones than the clamped size stand before it in the index; that number is its place in the batch. |
| `Projection.Clamp` | liva-native-core/src/memory_consolidation.rs:110-110 | The batch size is between 1 and 100, and differs from the given one only when that is out of range. |
| `MemoryDatabase.Database.ProcessPendingBatch` | liva-native-core/src/memory_consolidation.rs:96-254 | The statement-by-statement batch equals the specified one; if it owns its transaction and fails, nothing changed. |
| `MemoryDatabase.Database.VisitEvents` | liva-native-core/src/memory_consolidation.rs:131-226 | The event loop over the rows as selected equals visiting each once. |
| `MemoryDatabase.Database.RetryOrBury` | liva-native-core/src/memory_consolidation.rs:196-225 | UPDATE guarded by status, then the dead letter: together the specified move of a failing event. |
| `MemoryDatabase.Database.ConsolidateEvent` | liva-native-core/src/memory_consolidation.rs:132-194 | Triples first, then the guarded UPDATE and the counters. |
| `MemoryDatabase.Database.InsertTripleRow` | liva-native-core/src/memory_consolidation.rs:167-190 | Subject, object, edge; the edge's foreign keys hold by then. |
| `KeyAgreement.FirstBootAgreement` | liva-native-core/src/keystore.rs:194-237 | For any number of calls, any interleaving, crash or I/O error, and any file already there: all successful calls return the one secret the file on disk opens to, at most one generated it, and an existing file is untouched and nobody generates. |
| `KeyAgreement.ReaderGetsTheSecret` | liva-native-core/src/keystore.rs:195-223 | After any run in which some call succeeded, a call that found the file or lost the race gets that secret by reading back. |
| `KeyAgreement.ReadReturns` | liva-native-core/src/keystore.rs:195-223 | Reading back returns the secret the file opens to, original file included, and a locked error when it does not open. |
| `KeyAgreement.LaterCallFindsTheSecret` | liva-native-core/src/keystore.rs:194-223 | A fresh call on a file that opens returns its secret and leaves it alone, even if it first overlooks it and tries to create it. |
| `KeyAgreement.FirstCallCreates` | liva-native-core/src/keystore.rs:207-215 | With no file there, a call whose steps succeed creates it, however the writes are cut, and returns the secret it drew. |
| `KeyAgreement.KeyFileIsNeverOverwritten` | liva-native-core/src/keystore.rs:229-237 | The file only grows, by its creator; once it opens it never changes; a finished call stays finished. |
| `KeyAgreement.HalfWrittenFileLocks` | liva-native-core/src/keystore.rs:214-225 | Once the creator stopped before the file was complete, no call ever succeeds and no second key appears. |
| `KeyAgreement.StepKeepsInv` | liva-native-core/src/keystore.rs:194-237 | Each single step of any call keeps the protocol's invariant. |
| `KeyAgreement.KeyFile.WriteNewExclusive` | liva-native-core/src/keystore.rs:229-237 | Creates only if absent; on success the file is the data, on a failed write a prefix of it. |
| `KeyAgreement.KeyFile.LoadOrCreateSealed` | liva-native-core/src/keystore.rs:194-226 | Success always means the file opens to the returned secret; an existing file is never written. |
| `BackupRestore.Disk.RestoreDatabase` | liva-native-core/src/persistence_backup.rs:246-328 | All or nothing: a failure with working compensation leaves every file as before, a failure without it leaves every file in place or under its rollback name; success means size, digest, schema version, soundness and key id agreed with the manifest and the target holds the backup's database. |
| `BackupRestore.SidecarsFollowTarget` | liva-native-core/src/persistence_backup.rs:287-311 | With an old target all three old files are intact under the rollback name and no stale sidecar stays; without one, stale sidecars stay where they were. |
| `BackupRestore.RestoredFiles` | liva-native-core/src/persistence_backup.rs:287-311 | Target, -wal and -shm end under the rollback name with the same endings; every other file stays. |
| `BackupRestore.NothingIsLost` | liva-native-core/src/persistence_backup.rs:295-321 | However many compensating renames fail, each file is where it was or under the other name of its pair. |
| `BackupRestore.AllInPlace` | liva-native-core/src/persistence_backup.rs:295-321 | With every move undone the files are exactly as before. |
| `BackupRestore.MoveBack` | liva-native-core/src/persistence_backup.rs:296-299 | A compensating rename undoes its move and no other. |
| `BackupRestore.Disk.MoveAsideAll` | liva-native-core/src/persistence_backup.rs:287-311 | Target first, then each existing sidecar; if one fails the others are undone. |
| `BackupRestore.Disk.Undo` | liva-native-core/src/persistence_backup.rs:296-299 | The loop of compensating renames, latest first, moves everything back if none of them fails. |
| `BackupRestore.Disk.SwapIn` | liva-native-core/src/persistence_backup.rs:287-322 | Move aside, put the copy in place, or undo. |
| `BackupRestore.Disk.BackupDatabase` | liva-native-core/src/persistence_backup.rs:166-238 | Success leaves image and matching manifest and nothing else; failure touches no existing file, and with working compensation leaves neither. |
| `BackupRestore.Disk.Publish` | liva-native-core/src/persistence_backup.rs:228-236 | Both names appear or, with working compensation, neither; never the manifest alone. |
| `BackupRestore.BackupIsRestorable` | liva-native-core/src/persistence_backup.rs:246-276 | A finished backup passes every check of restore under a key id if and only if it is the same id ignoring ASCII case, and holds the database it was taken from. |
| `BackupRestore.RestorableIffUnaltered` | liva-native-core/src/persistence_backup.rs:251-274 | Beside a backup's own manifest, whatever lies in its place is restorable if and only if it is a sound image of the size, digest and schema version that were backed up and the key id is the same: altered backups are refused. |
| `BackupRestore.NoManifestNoRestore` | liva-native-core/src/persistence_backup.rs:251-257 | Without a manifest of version 2 beside it nothing is restored. |
| `BackupRestore.SameKeyIff` | liva-native-core/src/persistence_backup.rs:258-258 | Key ids are the same when they differ in the case of ASCII letters only. |
| `BackupRestore.ValidKeyIdIff` | liva-native-core/src/persistence_backup.rs:171-171 | A key id is 32 hex digits of either case. |
| `Fusion.SearchHybrid` | liva-native-core/src/db.rs:2189-2247 | At most top_k hits without duplicate ids, exact scores, rank order with ties in dense-then-sparse order, nothing left out ranks above anything kept. |
| `Fusion.AnswerIsUnique` | liva-native-core/src/db.rs:2204-2244 | That requirement admits exactly one list. |
| `Fusion.ScoreIs` | liva-native-core/src/db.rs:2207-2236 | The score of an id is the sum of its dense and its sparse share, or the one it has. |
| `Fusion.ShareIs` | liva-native-core/src/db.rs:2207-2217 | The share at place i is the weight divided by 61 + i. |
| `Fusion.CandidatesKeepOrder` | liva-native-core/src/db.rs:2214-2236 | Of two ids found by the sparse list alone the one it lists first comes first. |
| `Fusion.CandidatesAreBoth` | liva-native-core/src/db.rs:2207-2236 | Candidates are exactly the ids of both lists, each once, dense ones first. |
| `Fusion.AddDense` | liva-native-core/src/db.rs:2207-2212 | The dense loop scores each id with its share. |
| `Fusion.AddSparse` | liva-native-core/src/db.rs:2214-2236 | The sparse loop adds to the existing hit or appends, so every hit carries all its shares. |
| `Fusion.SortByScore` | liva-native-core/src/db.rs:2238-2243 | A stable sort by score alone yields the rank order. |
| `Fusion.TruncationIsAnswer` | liva-native-core/src/db.rs:2244-2244 | Cutting the sorted list keeps the best. |
| `JsonPatch.MergeJson` | liva-native-core/src/paths.rs:183-197 | The in-place loop over the patch's entries, in any order, computes the merge. |
| `JsonPatch.MergeIdempotent` | liva-native-core/src/paths.rs:183-197 | Applying a patch again changes nothing. |
| `JsonPatch.MergeKeepsUnreached` | liva-native-core/src/paths.rs:183-197 | Every path of the base the patch does not reach is kept, and none appears. |
| `JsonPatch.MergeSetsLeaves` | liva-native-core/src/paths.rs:183-197 | Every leaf of the patch is in the result. |
| `JsonPatch.MergeSetsObjects` | liva-native-core/src/paths.rs:183-197 | Where the patch has an object the result has one, whatever the base had there. |
| `JsonPatch.MergeIntoNothing` | liva-native-core/src/paths.rs:183-197 | Merged into something that is no object, or into an empty one, the patch is the result. |
| `JsonPatch.CommuteIffAgree` | liva-native-core/src/paths.rs:183-197 | Two patches commute on every base if and only if they agree wherever they overlap. |
| `JsonPatch.EveryPatchIsContained` | liva-native-core/src/paths.rs:241-307 | Any serialization of pairwise agreeing updates contains every one of them. |
| `JsonPatch.OrderDoesNotMatter` | liva-native-core/src/paths.rs:241-307 | ... and every order gives the same configuration. |
| `JsonPatch.ConfigFile.ReplaceAtomically` | liva-native-core/src/paths.rs:285-306 | The file is the new text or what it was; the temporary file is gone unless its removal failed. |
| `JsonPatch.ConfigFile.Update` | liva-native-core/src/paths.rs:241-307 | On success the file parses to the merge of old configuration and patch, or to the patch if there was no file; on any error it is unchanged. |
| `WakeGate.Gate.MatchesPhrase` | liva-native-core/src/wake.rs:367-391 | The pruned search accepts exactly the transcripts whose first eight words, after an optional leading hey, have a non-empty prefix reading as a phrase or a phrase with a final o. |
| `WakeGate.Gate.MatchesFrom` | liva-native-core/src/wake.rs:373-388 | The early break never misses: the inner loop accepts exactly when some non-empty prefix is a phrase. |
| `WakeGate.AcceptsIff` | liva-native-core/src/wake.rs:367-391 | Accepting means: some words from the first, or from the second behind a leading hey, at least one and none beyond the eighth, read together as a phrase or a phrase with a final o. |
| `WakeGate.ConcatFirst` | liva-native-core/src/wake.rs:373-375 | Reading words together is the first word followed by the rest. |
| `WakeGate.EarlierPrefixCouldMatch` | liva-native-core/src/wake.rs:382-387 | If some reading is a phrase, every shorter one could still become one. |
| `WakeGate.GateFollowsLastOpening` | liva-native-core/src/wake.rs:326-354 | After any run of calls an enabled gate is open exactly until a window after the last opening since the last sleep. |
| `WakeGate.Gate.TryWake` | liva-native-core/src/wake.rs:349-354 | A hit opens the gate, a miss leaves it as it was. |
| `ActiveRecall.RunAlternates` | liva-native-core/src/active_recall.rs:303-335 | In every run with a clock that does not go back, each session's verdict directly follows the question it answers, asked less than 600 s before, and is judged against the readable value of the fact as cached when the question was asked; a question follows a question only if that one went stale. |
| `ActiveRecall.NamedAnswerIsCorrect` | liva-native-core/src/active_recall.rs:345-372 | A reply that names the expected answer anywhere is judged correct if and only if that answer is not blank and the reply does not sound like giving up. |
| `ActiveRecall.FragmentIsCorrect` | liva-native-core/src/active_recall.rs:365-372 | So is a reply of three bytes or more that occurs in the expected answer. |
| `ActiveRecall.StrippedIsCorrect` | liva-native-core/src/active_recall.rs:365-372 | Both hold as well once diacritics are removed. |
| `ActiveRecall.UnrelatedIsWrong` | liva-native-core/src/active_recall.rs:365-372 | A reply is wrong if it gives up, or if neither it nor its form without diacritics shares anything with the answer. |
| `ActiveRecall.GaveUpIff` | liva-native-core/src/active_recall.rs:348-363 | Giving up is saying one of eleven phrases anywhere in the reply. |
| `ActiveRecall.AsksWhatIsDue` | liva-native-core/src/active_recall.rs:501-562 | With nothing pending a turn asks about the first found key that is due, named and readable and touches that fact only; it stays silent only when no found key is. |
| `ActiveRecall.CacheUsed` | liva-native-core/src/active_recall.rs:438-493 | Questions are looked up in the database's facts on first use, or when the cache is out of date and nothing in it matches; otherwise in the cache. |
| `ActiveRecall.VerdictTouchesItsFact` | liva-native-core/src/active_recall.rs:337-422 | A verdict touches the fact it judges and no other. |
| `ActiveRecall.DisabledIsInert` | liva-native-core/src/active_recall.rs:310-310 | Switched off, a turn says nothing and changes nothing. |
| `ActiveRecall.StepAlternates` | liva-native-core/src/active_recall.rs:303-335 | One event, of any session, keeps every session's history well formed and its pending challenge the unanswered last question. |
| `ActiveRecall.StrengthChangesOnlyByVerdict` | liva-native-core/src/active_recall.rs:337-422 | A turn changes a cached strength only by a verdict on that fact, given on a fresh challenge of its own session; otherwise strengths and values are those of the cache or of its reload. |
| `ActiveRecall.StrengthsStayInRange` | liva-native-core/src/active_recall.rs:391-411 | Cached strengths that start, and are reloaded, in [1, 10] stay there in every run. |
| `ActiveRecall.VerdictInRangeIff` | liva-native-core/src/active_recall.rs:391-407 | Exactly from which strengths a verdict leads into [1, 10]. |
| `ActiveRecall.VerdictEffect` | liva-native-core/src/active_recall.rs:391-407 | Within [1, 10] a correct answer gains a half, up to 10, and a wrong one loses a fifth, down to 1. |
| `ActiveRecall.Manager.TryInterceptTurn` | liva-native-core/src/active_recall.rs:303-335 | The turn ends in the specified state with the specified reply. |
| `ActiveRecall.Manager.EvaluateAnswer` | liva-native-core/src/active_recall.rs:337-422 | The cached fact and the verdict are the specified ones. |
| `ActiveRecall.Manager.CheckAndCreateChallenge` | liva-native-core/src/active_recall.rs:424-597 | The challenge, the touched fact and the reloaded cache are the specified ones. |
| `ActiveRecall.Manager.FindAskable` | liva-native-core/src/active_recall.rs:501-551 | The loop over candidates finds the first askable key. |
| `ActiveRecall.Manager.SweepExpired` | liva-native-core/src/active_recall.rs:263-270 | Drops exactly the challenges 600 s old and counts them. |

## Left out

- SQLite, connection pools, channels, threads and logging: tables are maps, the queue is a sequence, ROLLBACK is taken to succeed.
- The SQL of each actor command is a list of keyed row statements in `WriterSpec`; only the graph tables are modelled column by column there. The vector and event tables are modelled in full in `MemoryDatabase`.
- `Execute` closures other than the projection batch are one row write; the triples of a projection batch are a parameter of the actor's job, and are derived from the events only in `Projection`.
- Node `properties` are not part of the graph: the SQL upsert of a triple keeps the old value while the builder is handed an empty object.
- Deletion of facts, events and graph rows, retention, schema migration and the personalized PageRank over the compiled graph.
- AES-GCM, HKDF, SHA-256 and DPAPI: functions constrained by the laws above; nothing is claimed about secrecy.
- f32 and f64 rounding, int8 quantization, vector distance, FTS ranking and the decay formula: reals, given ranked lists, stored vectors as given.
- Unicode normalization, lower-casing, diacritic folding and the fact trie: functions or word lists given to the model.
- Fact recall statistics sent to the writer by active recall: the actor models the command, the recall machine does not send it.
- The `VACUUM` and WAL truncation after a personal-data rekey.
- KeyAgreement.FirstBootAgreement: a read of the key file returns its content at one moment, because the file is only appended to; deletion of the file by a user is not modelled.
- Projection.DrainBound: counts batches whose statements all succeed, because a batch that fails and owns its transaction changes nothing and can be repeated forever.
- ActiveRecall.RunAlternates: asks for a clock that does not go back, because a sweep at a later time followed by an earlier turn would drop a fresh challenge.
- `Path::exists` is taken to be truthful in `BackupRestore` (in `KeyAgreement` it may overlook a file).
- Restoring while a server is running, and directory creation beyond its failure.
- LLM, speech, vision, wake-model inference, messaging, HTTP, boot wiring and all UI code.
