# UniCenter verification model

A Dafny model of the stateful core of UniCenter's agent and of the protocol code it rests on, with
proofs of what that code promises:

- **Self-upgrade and local rollback** of the agent (`UpgradeMachine`, `UpgradeInvariant`,
  `UpgradeTheorems`, `UpgradeBackoff`, `UpgradeSteps`, `UpgradeAgent`, `StaleTransaction`,
  `UpgradeProtocol`). The disk (executable, backup, download, transaction, attempt record), the memory and the place a process has reached form
  a state; every file operation and external call is one event whose outcome the environment chooses,
  and a crash, which keeps the disk and loses the memory, can fall between any two. The theorems are
  about all sequences of events. `UpgradeAgent` is the runtime as imperative code: each method is
  proved to be a run of the machine, answer by answer, so the theorems hold of it.
- **Semantic versions** (`Semver`, `SemverTheorems`): parser, printer and comparison as in the source,
  a total order, round trips, and the exact extent of the agreement with section 11 of Semantic
  Versioning 2.0.0.
- **The sample queue and the message ids** of the connection (`Outbox`, `EnvelopeId`): drop-oldest out
  of three non-blocking channel operations, under every interleaving of senders and drain.
- **Metrics** (`Floats`, `Metrics`, `MetricsErrors`, `Sanitize`, `Rates`, `Collector`): validation and
  the error it reports, the repair before it and exactly which samples it saves, and rates by counter differencing with a telescoping bound.
- **Close reasons** (`Utf8`, `CloseCode`) and **the offline protocol payload** (`Payload`).

`Options`, `Text`, `Decimal` and `Sorting` are the library functions these use.

Strings of the Go code are sequences of `char`, one for each byte. Times are integers in nanoseconds.
Code that updates state in place is a class or a loop method here; what it computes is fixed by a
function or by the upgrade machine, and the lemmas are about those.

## Assumptions of the upgrade theorems

They stand as `Allowed` in the preconditions, because the code itself does not enforce them:

- events of one runtime do not overlap: no run starts inside another, and no connection event falls
  between two operations of a run (single flight is not proved);
- a run starts with no pending transaction on disk, which the connection brings about by confirming
  before it hands over a directive, if the clearing succeeds. `NoPendingTransactionIsExact` shows that
  this is exactly what integrity needs; the marker of an earlier rollback may be there.

Directives are arbitrary: one inside `hello_ack` is decoded without validation
(uni_agent/internal/transport/client.go:447-474) and run all the same. Only `ValidDirectivesSuffice` is
about validated ones. The wall clock may go back as well as forward at any time.

The digest, what a program says of itself, the version compiled into it, the platform and the windows
are arbitrary. `OnConnectFailed` is an event of the environment: the client declares the hook but never
calls it (uni_agent/internal/transport/client.go:66-75).

## Where the code differs from its description

- `truncateUTF8` is described as always yielding valid UTF-8; text within the limit is returned
  unchanged, valid or not. `TruncateUTF8` states when the result is valid, `InvalidWithinLimit` that
  it need not be. Its only caller passes ASCII text within the limit, so no close reason is affected
  (`CloseReason`).
- The comparison takes an all-digit identifier with leading zeros, or one that does not fit an int, for
  a word; `AgreementIsExact` gives the condition.
- The version key of the payload script ignores leading zeros, so two listed versions can have the same
  key (`TwoLatest`); `check` is then free to look at either. That a check right after a bake succeeds
  holds exactly under the condition in the contract of `Bake`.
- The queue is to drop a sample when it is full; it can drop one while there is room again
  (`DropsWithRoom`), and `UnneededDrop` gives the condition.

## Model

| member | source | states |
|---|---|---|
| UpgradeInvariant.ApplyKeepsInv | uni_agent/internal/upgrade/upgrade.go:214-355 | every allowed event keeps the invariant: the executable is the first program or a vetted download, the backup or the executable holds the bytes a pending upgrade started from, what a run has sent is a legal trace, and the handlers hold the transaction that is on disk |
| UpgradeTheorems.Reachable | uni_agent/internal/upgrade/upgrade.go:191-355 | so every sequence of directives, connection events, watchdog rounds, starts and crashes, with any operation failing, ends in a state of the invariant |
| UpgradeTheorems.ExecutableIntegrity | uni_agent/internal/upgrade/upgrade.go:259-353 | in every run the executable path holds the initial program or the complete bytes of a download whose size and digest matched a delivered directive and which passed the smoke check; never part of a file, and there is always a file |
| UpgradeTheorems.RollbackPossible | uni_agent/internal/upgrade/upgrade.go:304-352 | while a transaction is pending the backup holds the bytes the executable had when that run began, or there is no backup and the executable holds them; under the rolled-back marker the executable holds them |
| UpgradeTheorems.RollbackExact | uni_agent/internal/upgrade/upgrade.go:584-587 | a rollback that renames the backup puts back those bytes and changes no other file |
| UpgradeTheorems.FailureKeepsExecutable | uni_agent/internal/upgrade/upgrade.go:253-353 | a run that reports `failed` leaves the executable as it was; the one exception is a failed exec whose restoring rename failed too, and then the backup holds the old program |
| UpgradeTheorems.FailureLeavesNothing | uni_agent/internal/upgrade/upgrade.go:262-329 | if no removal, clearing or restoring rename fails, a failed run also leaves no download file and no transaction of its own: none, or the rolled-back marker it found |
| UpgradeTheorems.RestartMeansInstalled | uni_agent/internal/upgrade/upgrade.go:310-353 | a run about to restart has installed a vetted program, kept the old one in the backup and recorded exactly the transaction of this directive, field by field, with the clock of its recording as the start time |
| UpgradeTheorems.StatusGrammar | uni_agent/internal/upgrade/upgrade.go:214-355 | field by field, one run sends: rising download percentages, none above the share of the announced size received so far; then a prefix of verifying, installing, restarting without percentage or reason; then at most one `failed` with its reason; all with the id and target of the directive and the version of the process; a run that ended without a crash failed or reached `restarting` |
| UpgradeTheorems.ReceivedIsInFile | uni_agent/internal/upgrade/upgrade.go:395-412 | while the download goes on, what counts as received is the length of the file |
| UpgradeTheorems.RisingIsShort | uni_agent/internal/upgrade/upgrade.go:764-796 | percentages that rise by at least 5 and stay within 100 number at most 20 |
| UpgradeTheorems.StatusesAccepted | uni_protocol/upgrade.go:184-219 | every status ever sent, also one built from a transaction read back after a restart, is accepted if and only if its request id is decimal, its target version legal and its source version absent or legal; id and target are those of a delivered directive, whether or not that would pass validation, and the source is a version compiled into some program |
| UpgradeTheorems.ValidDirectivesSuffice | uni_protocol/upgrade.go:184-219 | so if the delivered directives pass their validation a status is accepted exactly if its source version is absent or legal, and all are if programs carry legal versions |
| UpgradeTheorems.PhaseMoves | uni_agent/internal/upgrade/transaction.go:63-98 | one event moves the transaction only along none, pending, none or rolled back, none; versions, backup path, request id and start time never change and the counters rise by at most one; only a run that records its own begins another, never over a pending one, with its own versions and id, zero counters and the clock of that moment |
| UpgradeTheorems.TransactionOrigin | uni_agent/internal/upgrade/upgrade.go:309-324 | every transaction ever on disk goes back to a recording step of some run: its versions and id are those of that process and directive, and its start time is what the clock said at that step |
| UpgradeTheorems.UpgradeStaysTheSame | uni_agent/internal/upgrade/transaction.go:38-98 | over any sequence of events in which no new transaction is recorded, what is on disk at the end is the same upgrade with the same versions, path, id and start time and no lower counters; rolled back it stays as it is, gone it stays gone |
| UpgradeTheorems.ThreeStartsSuffice | uni_agent/internal/upgrade/transaction.go:73-89 | a transaction still pending was found by at most three starts, and by three only while the third is rolling back, unless a start was cut short or had a failing read, write or restore |
| UpgradeTheorems.ThirdStartRestores | uni_agent/internal/upgrade/transaction.go:73-83 | the third start restores the program the upgrade replaced and leaves the marker, if its operations succeed |
| UpgradeTheorems.WatchdogRestores | uni_agent/internal/upgrade/upgrade.go:479-507 | so does a watchdog round past the deadline with no counted failure or with at least three |
| UpgradeTheorems.ThirdLateFailureRestores | uni_agent/internal/upgrade/upgrade.go:539-558 | so does the third connection failure after the trial window |
| UpgradeTheorems.RollbackRestores | uni_agent/internal/upgrade/upgrade.go:563-602 | every rollback whose operations succeed ends with the replaced program and the marker |
| UpgradeTheorems.NoPrematureRollback | uni_agent/internal/upgrade/upgrade.go:479-507 | a rollback is entered only by a start that is at least the third, by the watchdog after the trial window, measured from the clock at the recording of the transaction, with no counted failure or with at least three and their extensions over, or by a connection failure that is at least the third that counts |
| UpgradeTheorems.OnlyLateFailuresCount | uni_agent/internal/upgrade/upgrade.go:539-557 | a failure counts, and the counting of one begins, only when a connection fails with a pending transaction on disk whose trial window, from the clock at its recording, is over at that moment |
| UpgradeTheorems.HistoryKept | uni_agent/internal/upgrade/upgrade.go:214-222 | between two run starts the record of the latest run stays the one of that run |
| UpgradeBackoff.RetryAfterAttempt | uni_agent/internal/upgrade/upgrade.go:224-233 | over any events in which the process lives on and ends no other attempt: after a run reported `failed` or replaced the executable, or `rolled_back` was reported, for a request at clock t, a directive with that id is ignored below t plus ten minutes and so is one for the running version; every other begins a run |
| UpgradeBackoff.RetryAfterRestart | uni_agent/internal/upgrade/upgrade.go:657-674 | the same after any crashes and starts, if the record of that attempt was written, no other was since, and the last start could read it |
| UpgradeBackoff.NoRecordNoBackoff | uni_agent/internal/upgrade/upgrade.go:657-664 | after a start without a readable record only a directive for the running version is ignored |
| StaleTransaction.NoPendingTransactionIsExact | uni_agent/internal/upgrade/upgrade.go:214-355 | in every state in which a directive can start a run, the executable stays the first program or a vetted download in whatever follows if and only if no transaction is pending; the harm needs a directive with a vetted program on an upgradable platform and directives of positive size |
| StaleTransaction.NoPendingTransactionIsEnough | uni_agent/internal/upgrade/upgrade.go:191-355 | without a pending transaction it stays so for every directive, valid or not; a rolled-back marker left on disk does no harm |
| StaleTransaction.StaleTransactionIsHarmful | uni_agent/internal/upgrade/upgrade.go:304-329 | for every pending transaction, whatever its count of starts: if the process dies while the run copies the backup and again at each start until the third, an empty file ends up as the executable |
| UpgradeProtocol.SoundStatusAccepted | uni_protocol/upgrade.go:184-219 | a status with progress only while downloading and a reason exactly for the two final states passes validation exactly when its id is decimal, its target version legal and its source version absent or legal |
| UpgradeProtocol.ValidDirectiveMeans | uni_protocol/upgrade.go:38-52 | validation of a directive succeeds exactly for a decimal id, a legal version, 64 lower-case hex digits and a positive size |
| UpgradeProtocol.ValidStatusMeans | uni_protocol/upgrade.go:184-219 | validation of a status succeeds exactly for a decimal id, legal versions (the source may be absent), a known state, progress of 0 to 100 only while downloading, and a known reason exactly for the two final states |
| UpgradeProtocol.CheckDirective | uni_protocol/upgrade.go:38-52 | the code computes `ValidateDirective`, field and kind of the error included |
| UpgradeProtocol.CheckStatus | uni_protocol/upgrade.go:184-219 | the code computes `ValidateStatus`, field and kind of the error included |
| UpgradeProtocol.EncodeInjective | uni_protocol/upgrade.go:157-173 | different statuses differ on the wire |
| UpgradeAgent.ProgressReader.Count | uni_agent/internal/upgrade/upgrade.go:774-796 | the bookkeeping of one read: it reports exactly when the percentage rose by 5 and a second has passed or the end is reached |
| UpgradeAgent.Agent.Record | uni_agent/internal/upgrade/upgrade.go:109-117 | ties the fields to the machine: an event is recorded only if the fields are what it yields and the environment answered so; the log counts the signals, so no method can invent a crash or a start |
| UpgradeAgent.Agent.Integrity | uni_agent/internal/upgrade/upgrade.go:259-353 | at every point of the code between two operations the executable holds the first program or a vetted download of a directive in the log |
| UpgradeAgent.Agent.OnDirective | uni_agent/internal/upgrade/upgrade.go:191-211 | a directive is one signal followed by operations of the machine only; for the running version, or for the request of the last attempt less than 600 seconds after it, neither disk nor memory changes and nothing is sent; otherwise a run ends as stated for `Run` |
| UpgradeAgent.Agent.Run | uni_agent/internal/upgrade/upgrade.go:214-257 | refused as stated for `OnDirective`, nothing changes; otherwise the last thing sent is `failed`, and the executable is what it was, except after a failed exec whose restore failed too, when it is the vetted new program with the old one in the backup; or it is `restarting`, and then the vetted new program is in place, the old one in the backup and the pending transaction of this directive on disk; on another platform no file and no transaction changes |
| UpgradeAgent.Agent.InBackoff | uni_agent/internal/upgrade/upgrade.go:657-664 | refuses exactly the request of the last attempt at a clock less than 600 seconds after it |
| UpgradeAgent.Agent.Fetch | uni_agent/internal/upgrade/upgrade.go:259-277 | from the request on: ends as stated for `Run`, and no file but executable, backup and download is touched |
| UpgradeAgent.Agent.Download | uni_agent/internal/upgrade/upgrade.go:358-419 | on success the file is exactly the body the server sent, its length is the announced size and at most 512 MiB, and the digest is of those bytes; on every path at most one byte beyond the announced size and beyond 512 MiB is written and nothing else on disk changes; the statuses sent are `downloading` with this directive, rising by at least 5 each and never above the share of the announced size received |
| UpgradeAgent.Agent.CreateFile | uni_agent/internal/upgrade/upgrade.go:383-389 | an existing file is an error; a new one is empty |
| UpgradeAgent.Agent.CopyPieces | uni_agent/internal/upgrade/upgrade.go:395-402 | the copy loop keeps in the file what was received, up to one byte beyond the limit, and sends `downloading` statuses with rising percentages, none above the share received |
| UpgradeAgent.Agent.CopyPiece | uni_agent/internal/upgrade/upgrade.go:402 | one read and one write: the file grows by what was received, as far as the limit allows; a write that breaks off ends the download |
| UpgradeAgent.Agent.CloseFile | uni_agent/internal/upgrade/upgrade.go:403-418 | close, upper limit, announced size, digest |
| UpgradeAgent.Agent.Verify | uni_agent/internal/upgrade/upgrade.go:271-277 | goes on exactly if the digest is the lower-case digest of the directive |
| UpgradeAgent.Agent.Smoke | uni_agent/internal/upgrade/upgrade.go:285-295 | from the chmod on, also if that fails: ends as stated for `Run`, and no other file is touched |
| UpgradeAgent.Agent.RunSelfCheck | uni_agent/internal/upgrade/upgrade.go:290-303 | goes on exactly if the program ran and named the target version |
| UpgradeAgent.Agent.CopyFile | uni_agent/internal/upgrade/upgrade.go:696-711 | truncate, copy in pieces, close: success means that the backup equals the executable, which is untouched on every path |
| UpgradeAgent.Agent.Install | uni_agent/internal/upgrade/upgrade.go:310-324 | from the recording of the transaction on, also if that fails: ends as stated for `Run`, so with a restart only if the transaction of this directive is on disk, with the clock of its recording as start time; no other file is touched |
| UpgradeAgent.Agent.WriteTransaction | uni_agent/internal/upgrade/upgrade.go:309-324 | the transaction written has the versions, the id, the backup path, zero counters and the clock reading of this moment; a failure changes nothing |
| UpgradeAgent.Agent.Swap | uni_agent/internal/upgrade/upgrade.go:325-332 | from the rename on, also if that fails: ends as stated for `Run`, and no other file is touched |
| UpgradeAgent.Agent.Replace | uni_agent/internal/upgrade/upgrade.go:325-332 | one rename puts the download in place of the executable and removes it from where it was, or nothing on disk changes |
| UpgradeAgent.Agent.Withdraw | uni_agent/internal/upgrade/upgrade.go:325-329 | a failed replacement is reported as such, the executable is what it was, and no file but the download is touched |
| UpgradeAgent.Agent.Restart | uni_agent/internal/upgrade/upgrade.go:331-353 | from the attempt record on: ends as stated for `Run`, with the program in the backup as the old one |
| UpgradeAgent.Agent.ReportRestart | uni_agent/internal/upgrade/upgrade.go:331-335 | one `restarting` report; no file and no transaction changes |
| UpgradeAgent.Agent.RestoreOld | uni_agent/internal/upgrade/upgrade.go:344-353 | after exec returned the backup is renamed over the executable or no file changes; one exec failure is reported |
| UpgradeAgent.Agent.Fail | uni_agent/internal/upgrade/upgrade.go:625-637 | one `failed` report and the attempt record; no file and no transaction changes |
| UpgradeAgent.Agent.StartProcess | uni_agent/internal/upgrade/transaction.go:63-98 | a process start: start check, last attempt, watchdog |
| UpgradeAgent.Agent.ReadTransaction | uni_agent/internal/upgrade/transaction.go:118-131 | the stored transaction, or none without a state directory or if it cannot be read |
| UpgradeAgent.Agent.CheckOnStartup | uni_agent/internal/upgrade/transaction.go:63-98 | rolls back only a pending transaction that two starts or more have been counted for; otherwise no file changes, nothing is sent, and the disk changes at most by the raised counter of a pending transaction |
| UpgradeAgent.Agent.Start | uni_agent/internal/upgrade/upgrade.go:452-458 | the watchdog is armed exactly if a pending transaction is read |
| UpgradeAgent.Agent.Rollback | uni_agent/internal/upgrade/upgrade.go:563-602 | either no file changes or the backup is renamed over the executable |
| UpgradeAgent.Agent.GiveUp | uni_agent/internal/upgrade/upgrade.go:569-583 | without a backup: clear, and report `failed` with the id and versions of the transaction, unless this is the start check |
| UpgradeAgent.Agent.RestoreBackup | uni_agent/internal/upgrade/upgrade.go:584-601 | rename, marker, exec |
| UpgradeAgent.Agent.OnConnected | uni_agent/internal/upgrade/upgrade.go:511-532 | no readable transaction: nothing changes; a pending one: it stays or is cleared, nothing is sent; a marker: exactly the rolled-back status is sent, and the marker stays or is cleared; no file changes |
| UpgradeAgent.Agent.ReportRolledBack | uni_agent/internal/upgrade/upgrade.go:605-622 | exactly one status is sent: `rolled_back` with the id and versions of this transaction and the stored reason or the default one |
| UpgradeAgent.Agent.OnConnectFailed | uni_agent/internal/upgrade/upgrade.go:539-558 | with no readable pending transaction or inside its window the disk stays and nothing is sent; after it, below the third failure, only the counter on disk may rise; from the third on no file changes or the backup is renamed over the executable |
| UpgradeAgent.Agent.ProbationWatch | uni_agent/internal/upgrade/upgrade.go:461-508 | without a rollback the disk stays and nothing is sent; it rolls back only a pending transaction at a clock reading past its window and the extensions for counted failures, of which there are none or at least three |
| Semver.ParseSemver | uni_protocol/semver.go:40-76 | the parser of the source computes `Parse` |
| Semver.ParseNumericIdent | uni_protocol/semver.go:147-164 | accepts exactly decimal identifiers without leading zeros that fit an int, and yields their value |
| Semver.ValidPreIdent | uni_protocol/semver.go:167-185 | accepts exactly dot-separated non-empty identifiers of the allowed characters |
| Semver.IdentChars | uni_protocol/semver.go:167-185 | the characters of identifiers, by their codes |
| Semver.ComparePre | uni_protocol/semver.go:110-144 | the loop computes the lexicographic order of the identifier keys |
| Semver.CompareSemver | uni_protocol/semver.go:89-107 | the comparison of the source computes `Compare` |
| SemverTheorems.CompareLaws | uni_protocol/semver.go:89-144 | antisymmetric in sign, and 0 on equal values only, for all values |
| SemverTheorems.CompareTransitive | uni_protocol/semver.go:89-144 | transitive, also strictly |
| SemverTheorems.KeysInjective | uni_protocol/semver.go:110-144 | no two identifier lists look alike to the comparison, leading zeros and over-long numbers included |
| SemverTheorems.ParseOfPrint | uni_protocol/semver.go:22-28 | printing and parsing gives the value back, for every value the parser can produce |
| SemverTheorems.PrintOfParse | uni_protocol/semver.go:40-76 | parsing and printing gives the text without everything from the first `+` on |
| SemverTheorems.AcceptedTexts | uni_protocol/semver.go:79-82 | the accepted texts are exactly the printed legal values with an optional legal build section |
| SemverTheorems.EqualUpToBuild | uni_protocol/semver.go:89-107 | two accepted texts compare equal exactly when they agree without build metadata (section 10 of Semantic Versioning 2.0.0) |
| SemverTheorems.AgreesWithSection11 | uni_protocol/semver.go:89-144 | on ordinary versions the comparison is the precedence of section 11, written as a relation over positions |
| SemverTheorems.AgreementIsExact | uni_protocol/semver.go:110-164 | a version agrees with section 11 against all ordinary versions if and only if its numeric identifiers have no leading zeros and fit an int |
| Outbox.Accounting | uni_agent/internal/transport/client.go:177-202 | for every interleaving of any number of sends with the drain: at most 30 pending, and whenever no send is in progress each sample offered was taken, is pending or was dropped, exactly once, and the count is the number dropped modulo 2^64 |
| Outbox.AlwaysAccounted | uni_agent/internal/transport/client.go:177-202 | the same in the middle of sends: what is neither taken, pending nor dropped is carried by a call, and uncounted drops are owed by calls |
| Outbox.Fifo | uni_agent/internal/transport/client.go:177-202 | the queue is the newest part of what got in, and taken and pending samples are a subsequence of it |
| Outbox.SubsequencePlaces | uni_agent/internal/transport/client.go:177-202 | the samples of a subsequence stand at rising places of the sequence |
| Outbox.NewestKept | uni_agent/internal/transport/client.go:177-202 | with one sender no sample is turned away: the queue is the gapless newest part of what was offered, and the last one taken or pending is the newest |
| Outbox.Offline | uni_agent/internal/transport/client.go:177-202 | without a drain the queue is exactly the last 30 samples and the count the number of older ones |
| Outbox.TwoSendersCanLose | uni_agent/internal/transport/client.go:192-201 | with two senders the newest sample of all can be the one that is turned away, while an older one gets in |
| Outbox.UnneededDrop | uni_agent/internal/transport/client.go:182-193 | with one sender, a call that found the queue full evicts a sample although there is room again if and only if the drain took some but not all samples in between |
| Outbox.DropsWithRoom | uni_agent/internal/transport/client.go:182-193 | such a run: 31 samples offered, one taken, one dropped, 29 pending |
| Outbox.Client.Send | uni_agent/internal/transport/client.go:177-202 | the code is such an interleaving, and the call returns; nil is ignored; with one sender the new sample ends up newest |
| Outbox.Client.MakeRoom | uni_agent/internal/transport/client.go:186-193 | if there is a sample in the queue the oldest is evicted, and counted before the call goes on |
| Outbox.Client.TryAgain | uni_agent/internal/transport/client.go:194-201 | with room the sample gets in, otherwise it is itself recorded as lost; the call returns |
| Outbox.Client.Tick | uni_agent/internal/transport/client.go:583-597 | the samples taken during a tick are exactly those written to the connection, in order, one write each; it ends with an empty queue, everything that got in having left, exactly if no write failed; the first failed write is the last one |
| Outbox.Client.Pending | uni_agent/internal/transport/client.go:212-214 | at most the capacity |
| Outbox.Client.DropCount | uni_agent/internal/transport/client.go:205-209 | between sends: offered minus taken minus pending, modulo 2^64 |
| EnvelopeId.InjectivePerLength | uni_agent/internal/transport/client.go:653-659 | for clock readings printed with the same length two ids are equal if and only if the readings are and the sequence numbers agree modulo 1000 |
| EnvelopeId.Injective | uni_agent/internal/transport/client.go:653-659 | so they are for all 19-digit readings |
| EnvelopeId.CollisionIsExact | uni_agent/internal/transport/client.go:653-659 | readings printed with different lengths share an id for some sequence numbers if and only if the longer numeral is the shorter one with one or two digits appended, the first of them not 0 |
| EnvelopeId.FarLengthsNeverCollide | uni_agent/internal/transport/client.go:653-659 | so readings whose lengths differ by more than two, such as a clock still near 1970 and one that is set, never share an id |
| EnvelopeId.LengthsMatter | uni_agent/internal/transport/client.go:653-659 | such collisions are common: every 18-digit reading collides with nine 19-digit ones, for ten sequence numbers each |
| EnvelopeId.IdSource.NewID | uni_agent/internal/transport/client.go:650-659 | ids are decimal exactly for readings since 1970, and of 20 to 22 characters for 19-digit readings |
| EnvelopeId.IdSource.Unique | uni_agent/internal/transport/client.go:650-659 | two ids of one process whose clock readings have the same length are equal exactly if the clock read the same and 1000 divides the distance of the calls |
| Metrics.ValidateIsLegal | uni_protocol/metrics.go:100-318 | validation, whose first failing check decides, accepts exactly the legal samples |
| MetricsErrors.ReportsFirstWrongRow | uni_protocol/metrics.go:100-318 | the error is that of the first wrong row in the table of all fields in wire order: its wire name and what is wrong, a timestamp, a missing name, a value that is no number, or one out of range |
| Sanitize.RepairSuffices | uni_agent/internal/collect/tcp_sensor.go:194-278 | after the repair a sample is accepted if and only if it was repairable: positive time, names present, unrepaired fields legal, memory and disk sizes neither NaN nor +Inf, except that an infinite used size is capped, and rates not +Inf |
| Sanitize.Idempotent | uni_agent/internal/collect/tcp_sensor.go:194-264 | a second repair changes nothing |
| Sanitize.Gentle | uni_agent/internal/collect/tcp_sensor.go:194-264 | a legal sample only has its percentages rounded, by at most 0.005 |
| Sanitize.LeastRepair | uni_agent/internal/collect/tcp_sensor.go:194-264 | no number of the repaired sample is further from what was measured than that of any legal sample, up to the rounding of percentages; everything else is kept |
| Sanitize.LeastDiskRepair | uni_agent/internal/collect/tcp_sensor.go:220-234 | the same for a disk; a used size above the total becomes the total |
| Sanitize.LeastDiskIORepair | uni_agent/internal/collect/tcp_sensor.go:235-242 | the same for the rates of a disk |
| Sanitize.LeastNICRepair | uni_agent/internal/collect/tcp_sensor.go:243-252 | the same for the rates of an interface |
| Sanitize.SampleCell.Sanitize | uni_agent/internal/collect/tcp_sensor.go:194-264 | the in-place code computes exactly this repair |
| Sanitize.SampleCell.Finish | uni_agent/internal/collect/collector.go:124-129 | a frame is kept exactly if it was repairable |
| Floats.ClampedPercent | uni_agent/internal/collect/cpu_mem.go:144-164 | a clamped percentage lies in 0..100 and is a fixed point; it is within 0.005 of a legal input, 0 for a number below 0 and for what is no number, 100 for one above 100 |
| Floats.CentsNearest | uni_agent/internal/collect/disk_net.go:376-381 | rounding to two decimals moves a value by at most 0.005 |
| Floats.CentsIsMultiple | uni_agent/internal/collect/disk_net.go:376-381 | the result is a multiple of a hundredth, and a value midway between two goes away from zero |
| Floats.GreaterLaws | uni_protocol/metrics.go:152-157 | the comparison is the order of the numbers with the infinities at the ends, and false on NaN |
| Rates.RateBounds | uni_agent/internal/collect/disk_net.go:271-286 | a rate is a number between 0 and 1e15, whatever the counters |
| Rates.RateTimesGap | uni_agent/internal/collect/disk_net.go:271-286 | rate times gap is the increment within 0.005 times the gap |
| Rates.UtilisationIsShare | uni_agent/internal/collect/disk_net.go:150-158 | the busy percentage is the busy milliseconds in percent of the gap within 0.005, and 100 if they are more |
| Rates.DiskEntryIsBusy | uni_agent/internal/collect/disk_net.go:150-158 | and it stands in the entry of every disk with a baseline, a gap and a counter that did not fall |
| Rates.Telescopes | uni_agent/internal/collect/disk_net.go:107-249 | over any frames with a running clock, no falling counter and no rate above 1e15: the reported rates times the gaps add up to the change of the counter within 0.005 per second, whatever other devices do and even if the device was absent for a while |
| Rates.TelescopesOne | uni_agent/internal/collect/disk_net.go:226-249 | the same for one frame, with a baseline kept over an absence |
| Rates.DiskEntryHasRate | uni_agent/internal/collect/disk_net.go:111-162 | a visible disk has an entry exactly if it was read, and its rates are those of the telescoping sum |
| Rates.NicEntryHasRate | uni_agent/internal/collect/disk_net.go:165-213 | the same for interfaces |
| Rates.FirstSight | uni_agent/internal/collect/disk_net.go:130-140 | without a baseline every rate is zero and the reading becomes the baseline |
| Collector.Collector.CollectIOAndNICs | uni_agent/internal/collect/disk_net.go:107-223 | the code reports one entry per visible device, sorted by name, with exactly those rates, and moves the baselines |
| Collector.Collector.ListDisks | uni_agent/internal/collect/disk_net.go:112-130 | notes every counter; lists the visible disks, each once, in order |
| Collector.Collector.FillDiskRates | uni_agent/internal/collect/disk_net.go:132-159 | rates for the disks with a baseline |
| Collector.Collector.CollectNICs | uni_agent/internal/collect/disk_net.go:165-213 | one entry per visible reading, from the first reading of that name |
| Collector.Collector.SetBaselines | uni_agent/internal/collect/disk_net.go:239-249 | this frame overrides, missing devices keep their baseline |
| Collector.SortedNames | uni_agent/internal/collect/collector.go:150-157 | every key once, ascending |
| Collector.ReportIsRepairable | uni_agent/internal/collect/disk_net.go:271-286 | a reported entry is legal, and repairable, exactly if it has a name |
| Collector.RatesNeverDropAFrame | uni_agent/internal/collect/collector.go:102-130 | whether a frame is kept does not depend on the rates, only on the names of the reported devices and on the rest of the sample |
| Utf8.TruncateUTF8 | uni_protocol/closecode.go:64-73 | beyond the limit: the longest valid prefix within it, at most three bytes short for valid text; within the limit the text unchanged; so the result is valid if and only if the text is or was cut |
| Utf8.InvalidWithinLimit | uni_protocol/closecode.go:64-67 | under every positive limit there is text that is returned although it is not valid |
| Utf8.ValidIsEncoded | uni_protocol/closecode.go:63-73 | text valid by the syntax of section 4 of RFC 3629 is the encoding of its characters by section 3 |
| Utf8.EncodingDecodes | uni_protocol/closecode.go:63-73 | every encoded character sequence is valid and decodes to itself |
| Utf8.PrefixOfText | uni_protocol/closecode.go:64-73 | a valid prefix consists of the first characters: truncation splits none |
| Utf8.ThreeGivenUp | uni_protocol/closecode.go:64-73 | giving up three bytes can be necessary |
| CloseCode.CloseReason | uni_protocol/closecode.go:55-61 | for every code the reason is the code and its text from the table, or `closed`; it is within the limit, so nothing is cut off, and it is valid text |
| Payload.Payload.PayloadVersions | scripts/protocol-payload.py:115-119 | succeeds exactly if the list exists and every line is a version; yields each version once, ascending by key |
| Payload.Payload.LatestVersion | scripts/protocol-payload.py:122-126 | a version above which no listed one lies: none has a greater major number, with the same a greater minor, with both a greater patch |
| Payload.Payload.Check | scripts/protocol-payload.py:143-170 | success means that the archive of a version with the greatest numbers has the paths and digests of the tree, and an archive that has makes it succeed |
| Payload.Payload.Bake | scripts/protocol-payload.py:174-212 | refuses exactly for an unreadable list, a malformed or listed explicit version or nothing to follow; otherwise appends one version, by default with the major and minor of the listed version of the greatest numbers and the patch after it, leaves all others as they were, and its archive has one entry per file, named module@version/path, in the order of the paths; `check` on the same tree then succeeds if and only if the version is above every listed one or `check` succeeded before; the list is rewritten after all other writes, and an interruption between any two of those leaves list and history intact |
| Payload.Payload.WriteFiles | scripts/protocol-payload.py:185-205 | info, mod and archive, every write about the new version; a missing source file ends it |
| Payload.WritesUnharmed | scripts/protocol-payload.py:188-205 | any writes about a version that is not listed leave the list and the files of every listed version as they were |
| Payload.NewestIsChecked | scripts/protocol-payload.py:143-170 | `check` looks at a newest version |
| Payload.OlderIsNotChecked | scripts/protocol-payload.py:143-170 | an explicit version below a listed one does not change the verdict of `check` |
| Payload.TieIsChecked | scripts/protocol-payload.py:143-170 | nor does one whose key is that of the latest version |
| Payload.BakedVerdict | scripts/protocol-payload.py:174-212 | so after a bake `check` succeeds if and only if the version is the newest or it succeeded before |
| Payload.TwoLatest | scripts/protocol-payload.py:108-126 | a leading zero makes a second version of the same key, and then both are latest |
| Payload.UnharmedChecks | scripts/protocol-payload.py:174-208 | an interrupted bake does not change the verdict of `check` |
| Payload.TornList | scripts/protocol-payload.py:207-208 | an interruption of the rewriting of the list itself can: cut short after some lines it makes `check` look at the last of them, cut to nothing it fails |
| Payload.TornLine | scripts/protocol-payload.py:115-119 | a last line torn so that it is no version fails every check |
| Payload.TornVersion | scripts/protocol-payload.py:115-126 | a last line torn so that a version is left decides the verdict if it is above the lines before it, changes nothing if it is below the line before it, and both verdicts are needed if the keys are equal |
| Payload.NextPatchIsNewest | scripts/protocol-payload.py:182-183 | the next patch after the latest is above every listed version and not listed |
| Payload.BelowIsPositional | scripts/protocol-payload.py:108-112 | the order of versions: the first of major, minor, patch that differs decides |
| Payload.VersionText | scripts/protocol-payload.py:108-112 | `v`, then three decimal numerals between dots, is a version with those numbers |
| Payload.VersionHasText | scripts/protocol-payload.py:108-112 | and every version has that form |
| Payload.ReadableZip | scripts/protocol-payload.py:129-140 | an archive is read exactly if every entry but the folders lies under module@version/ |
| Payload.HashOf | scripts/protocol-payload.py:129-140 | what is read for a path is the digest of the last entry of that name |
| Payload.EntryOf | scripts/protocol-payload.py:129-140 | and only paths that have an entry are read |
| Payload.PackedAgrees | scripts/protocol-payload.py:129-139 | an archive baked from a complete tree agrees with it |
| Payload.WrittenKey | scripts/protocol-payload.py:108-112 | the key of a printed version is the one printed |
| Payload.WrittenListReadBack | scripts/protocol-payload.py:115-119 | the written list is read back as it is |
| Decimal.FormatLength | uni_agent/internal/transport/client.go:658 | a number prints with at most k digits exactly if it is below 10^k |
| Decimal.FormatInjective | uni_agent/internal/transport/client.go:658 | different numbers print differently |

## Left out

- Overlapping events: two runs at once, and a connection event inside a run; single flight is not claimed.
- That probation ends: with one or two probe failures the watchdog only waits.
- Power loss: the code does no fsync; crashes are process crashes, and `os.Rename` and the transaction file written beside and renamed are one step each.
- HTTP, TLS, WebSocket framing, JSON, subprocess and exec internals: outcomes chosen by the environment; an undecodable record counts as unreadable.
- Jitter, token saving before a restart, log output, `ReasonDetail` with its normalisation, and the `Detail` and `Previous` fields of a transaction.
- A missing `SendStatus`, `Token` or `SmokeRun` dependency, except that the start check sends nothing; a failed status delivery is only logged and the status counts as sent.
- Symbolic links: the executable path is one place; locating it may fail.
- `strings.TrimSpace` and `strings.ToLower` outside ASCII; in the payload script, Unicode digits and the separators U+001C to U+001F as white space.
- Rounding inside float64 arithmetic: numbers are reals, with NaN and the infinities as separate values.
- Reading counters, sensors and `/proc`, and the device name rules: counters and the rules are arbitrary inputs.
- The sort of the disk entries after they were listed in sorted order, which changes nothing.
- The queue of upgrade statuses (`controlCh`): the same construction with another capacity, without a count.
- Duplicate archive entries and folder entries other than by name; a source tree is a map from paths to contents; the list file is its lines.
- `AllCloseCodes`, reconnect back-off, hello contents, registry, handlers, console: not part of the state modelled here.
- Outbox.Client.Tick: bounds what senders do meanwhile by a parameter, because the loop of the source ends only if they pause.
- UpgradeAgent.Agent.ProbationWatch: runs for a number of rounds chosen by the caller; the ticker and the context are not modelled.
- Utf8.TruncateUTF8: a negative limit, which would panic, is excluded by its type.
