# Restore from backup — a Dafny model of the tablet manager's restore flow

This project models how a Vitess tablet manager restores its MySQL instance from a backup. It covers:

- **`RestoreData`**. The entry point: it takes the action lock and needs a `my.cnf`.
- **`restoreDataLocked`**. It does the following, in order:
  1. Flips the tablet's type to RESTORE.
  2. Records the local metadata.
  3. Resolves the keyspace to restore from. A SNAPSHOT keyspace uses its base keyspace.
  4. Calls the backup engine, retrying "no backup" / "no complete backup" while a wait interval is set.
  5. For a keyspace with a snapshot time, runs point-in-time recovery (PITR).
  6. Decides from the resulting error whether to reattach replication, accept the result, or fail.
  7. Finally persists the final tablet type.
- **`restoreToTimeFromBinlog`**. PITR: it asks the binlog server for the first GTID after the restore time, then catches up to it.
- **The scan callback of `getGTIDFromTimestamp`**.
- **`catchupToGTID`**. It replays from the binlog server up to a GTID, polls the local position, then detaches.
- **`startReplication`**. It resets replication, sets the restored position, finds the shard's master, points MySQL at it and waits for the position to move.
- **`getLocalMetadataValues`**.

## Structure

There are two layers.

**Specification functions.** Each step is a pure function over *oracle records*: the answers the topology server, the backup engine, the binlog stream and MySQL give, in the order they are asked. Each function returns the outcome together with the log of side effects it causes:

- type updates
- restore calls
- streaming requests
- SQL command lists
- set-position, semi-sync and set-master calls

The outcome is one of:

- `Returned(err)`: the function returns `err`.
- `Panicked`: the index panic described below.
- `Unfinished`: the finite oracle trace ran out while a loop still wanted another round.

**The tablet manager.** `TabletManager.TabletManager` is a class. It holds:

- the tablet's current type, which its methods update in place;
- the log of side effects issued so far.

Its methods follow the Go code step by step, including the retry loop, the poll loop and the wait loop. Each method is proved to produce exactly the outcome and the log of the matching specification function. The class invariant `Valid` states that the tablet's type is the last type it persisted. Every method that changes the manager requires it and preserves it. `Issue`, which records one call, refuses a type update.

## Behaviours of the code that the model keeps

The model follows the code exactly, including these cases:

- **PITR errors.** The PITR step's error *replaces* the backup engine's error. A PITR error makes `restoreDataLocked` return nil with the type left at RESTORE and no reattachment (restore.go:143-150). A restore whose backup failed is therefore still accepted once PITR succeeds or is skipped.
- **Restore time.** Only events whose timestamp is *strictly* after the restore time qualify (restore.go:248).
- **Catch-up target.** The catch-up polls until the local position has the GTID *preceding* the qualifying event, not the qualifying event itself (restore.go:316). Replication runs until just before the qualifying GTID.
- **Failure answers of the catch-up poll.** For a position read error and for a timeout, the code wraps the function's own `err`, which is nil at that point (restore.go:341, 344). Whether wrapping nil gives nil is `Deps.wrapNilIsNil`, a parameter of the model. With it set, a timed-out catch-up looks like success (`Catchup.CatchupTimeoutLooksLikeSuccess`).
- **Stream failure.** A binlog stream that fails before a qualifying event sends a one-element slice, and reading its second element panics (restore.go:258-265). The model gives the `Panicked` outcome there.
- **Errors that leave the type at RESTORE.** A failed keyspace lookup, a SNAPSHOT keyspace without a base keyspace, a context cancelled while waiting for a backup, and a failed reattachment all return an error with the type left at RESTORE. Only the default branch of the switch restores the original type.
- **Final type.** The final type is the original type, unless:
  - the original type was BACKUP or RESTORE,
  - `init_tablet_type` is set,
  - and it parses.

  In that case the parsed type is used.

## Files

| file | contents |
|---|---|
| `wrappers.dfy` | Option and Result |
| `topodata.dfy` | tablet types, aliases, keyspace, shard and tablet records |
| `vterrors.dfy` | the error values and `Wrap` |
| `mysql.dfy` | positions and the SQL statements sent |
| `collaborators.dfy` | flags as `Config`, unseen helper functions as `Deps`, restore parameters, the side-effect log and outcomes |
| `resolver.dfy` | the binlog-scan callback and how the resolver answers |
| `catchup.dfy` | `catchupToGTID` |
| `pitr.dfy` | `restoreToTimeFromBinlog` |
| `reattach.dfy` | `startReplication` |
| `restore.dfy` | `getLocalMetadataValues`, `restoreDataLocked` and `RestoreData` as functions, in stages |
| `restore_properties.dfy` | what a whole restore does |
| `tablet_manager.dfy` | the class and its methods |

## Model

| member | source | states |
|---|---|---|
| Restore.RestoreData | go/vt/vttablet/tabletmanager/restore.go:67-76 | Definition of the entry point. Its properties are `RestoreDataGuards` and the class method `RestoreData`. |
| Restore.RestoreDataLocked | go/vt/vttablet/tabletmanager/restore.go:78-103 | Definition: the type flip, the keyspace lookup and the keyspace choice, then `Attempted`. Its properties are the `RestoreProperties` lemmas below. |
| Restore.Attempted | go/vt/vttablet/tabletmanager/restore.go:105-137 | Definition: the restore parameters and the retry loop with its restore calls, then `AfterBackup`. Its properties are `AttemptedSteps` and `AttemptedRestored`. |
| Restore.AfterBackup | go/vt/vttablet/tabletmanager/restore.go:139-150 | Definition: the restored position and PITR, whose result replaces the backup error; a PITR error ends with nil at RESTORE. Its properties are `AfterBackupSteps`, `RestorePitrErrorIsSoft` and `RestorePitrMasksBackupError`. |
| Restore.Settle | go/vt/vttablet/tabletmanager/restore.go:151-188 | Definition: the switch on the error, the reattachment of a NORMAL keyspace, and the final type. Its properties are `SettleSteps` and `SettleOk`. |
| Restore.RetryLoop | go/vt/vttablet/tabletmanager/restore.go:119-137 | Definition of the retry loop on the engine's answers. Its properties are `RetryLoopRestoredIff`, `RetryLoopCancelledIff`, `RetryLoopBounds` and `RetryLoopOnceWithoutInterval`. |
| Pitr.RestoreToTime | go/vt/vttablet/tabletmanager/restore.go:193-215 | Definition of PITR. Its properties are the `Pitr.RestoreToTime…` lemmas. |
| GtidResolver.Scan | go/vt/vttablet/tabletmanager/restore.go:246-255 | Definition of the callback's scan across batches. Its properties are the `Scan…` lemmas. |
| GtidResolver.Resolve | go/vt/vttablet/tabletmanager/restore.go:257-269 | Definition of the resolver's answer, including the index panic after a stream error. Its property is `ResolveSpec`. |
| Catchup.Poll | go/vt/vttablet/tabletmanager/restore.go:305-327 | Definition of the poll on the position samples. Its properties are `PollFirstDecisive`, `PollWithoutDecisive` and `PollCaughtUpIff`. |
| Catchup.CatchupToGtid | go/vt/vttablet/tabletmanager/restore.go:277-346 | Definition of the catch-up. Its properties are `CatchupDecodeFailure`, `CatchupCommands`, `CatchupNilMeans` and `CatchupTimeoutLooksLikeSuccess`. |
| Reattach.StartReplication | go/vt/vttablet/tabletmanager/restore.go:348-441 | Definition of the reattachment. Its properties are the `StartReplication…` lemmas. |
| Reattach.WaitForChange | go/vt/vttablet/tabletmanager/restore.go:423-438 | Definition of the final wait. Its properties are `WaitForChangeOkIff` and `WaitForChangeErrors`. |
| Restore.LocalMetadataValues | go/vt/vttablet/tabletmanager/restore.go:443-455 | The map has exactly the keys Alias, ClusterAlias, DataCenter and PromotionRule. ClusterAlias is "keyspace.shard" and DataCenter is the alias's cell. PromotionRule is "neutral" exactly when the type is master-eligible, otherwise "must_not". |
| Restore.RestoreKeyspace | go/vt/vttablet/tabletmanager/restore.go:95-103 | Fails exactly for a SNAPSHOT keyspace with an empty base keyspace, with INVALID_ARGUMENT and the message naming the tablet's keyspace. Otherwise it is the base keyspace for SNAPSHOT and the tablet's own keyspace for NORMAL. |
| Restore.RetryLoopRestoredIff | go/vt/vttablet/tabletmanager/restore.go:119-137 | The loop ends with the n-th attempt's result after n calls exactly when every earlier attempt was retried, and the n-th attempt is not retried. An attempt is retried when an interval is set, its error is no backup / no complete backup, and the context stayed live during the wait. |
| Restore.RetryLoopCancelledIff | go/vt/vttablet/tabletmanager/restore.go:119-137 | The loop ends with the context's error after n calls exactly when every earlier attempt was retried and the context ended while waiting after the n-th attempt. |
| Restore.RetryLoopBounds | go/vt/vttablet/tabletmanager/restore.go:119-137 | The number of calls made lies between 1 and the number of attempts available. The result is that of the last call. |
| Restore.RetryLoopOnceWithoutInterval | go/vt/vttablet/tabletmanager/restore.go:121-124 | With a zero interval the engine is called once and its answer is taken whatever it is. |
| Restore.Classify | go/vt/vttablet/tabletmanager/restore.go:151-173 | Reattach exactly when there is no error and the keyspace is NORMAL. Proceed exactly for no error on a SNAPSHOT keyspace, no backup, or an existing database. Fail exactly for any other error. |
| Restore.FinalType | go/vt/vttablet/tabletmanager/restore.go:175-182 | The parsed `init_tablet_type` when the original type was BACKUP or RESTORE and the flag is set and parses, otherwise the original type. |
| Mysql.DecimalRoundTrip | go/vt/vttablet/tabletmanager/restore.go:294 | The decimal rendering of a non-negative port, as `%d` prints it, is a string of digits that reads back as the port. |
| GtidResolver.ScanFindsFirstQualifying | go/vt/vttablet/tabletmanager/restore.go:243-261 | The scan answers the GTID of the first event that has a GTID and a timestamp strictly after the restore time. Its stop position is the last non-empty GTID seen before that event, across batches. |
| GtidResolver.ScanPendingWithoutQualifying | go/vt/vttablet/tabletmanager/restore.go:246-255 | Without a qualifying event the scan sends nothing and only tracks the last non-empty GTID. |
| GtidResolver.ScanAppend | go/vt/vttablet/tabletmanager/restore.go:246-255 | Scanning batches in turn is scanning their concatenation. Once a GTID is sent, later batches are ignored, and the stop position carries over between batches. |
| GtidResolver.ScanIgnoresLaterEvents | go/vt/vttablet/tabletmanager/restore.go:248-251 | After the first send, events in later batches do not change the answer. |
| GtidResolver.ScanFoundQualifies | go/vt/vttablet/tabletmanager/restore.go:248 | A GTID the scan sends belongs to an event strictly after the restore time. |
| GtidResolver.ScanBatch | go/vt/vttablet/tabletmanager/restore.go:246-255 | The callback's loop over one batch computes the scan function. |
| GtidResolver.ResolveSpec | go/vt/vttablet/tabletmanager/restore.go:243-269 | The resolver answers the first qualifying event's GTID with the last GTID before it. Without a qualifying event it answers ("", "") when the stream closed or the context ended, and panics when the stream failed. |
| GtidResolver.GetGtidFromTimestamp | go/vt/vttablet/tabletmanager/restore.go:243-269 | Feeding the batches to the callback in order gives the resolver's answer on their concatenation. |
| Catchup.PollPosition | go/vt/vttablet/tabletmanager/restore.go:305-327 | The poller's loop computes the poll function on the samples read before the deadline. |
| Catchup.CatchupStmtsText | go/vt/vttablet/tabletmanager/restore.go:291-296 | The SQL of the first list: the two STOP statements, CHANGE MASTER with the binlog host, the port in decimal and the user, and START SLAVE UNTIL SQL_BEFORE_GTIDS with the GTID to stop before. The reset list (restore.go:332-335) is STOP SLAVE then RESET SLAVE ALL. |
| Catchup.PollFirstDecisive | go/vt/vttablet/tabletmanager/restore.go:310-316 | The first read error or first position at least the stop position decides the poll: error or caught up. |
| Catchup.PollWithoutDecisive | go/vt/vttablet/tabletmanager/restore.go:307-326 | Without such a sample the poll times out. |
| Catchup.PollCaughtUpIff | go/vt/vttablet/tabletmanager/restore.go:305-327 | The poll reports caught up exactly when some sample has every transaction of the stop position and no earlier sample failed or had them. |
| Catchup.CatchupDecodeFailure | go/vt/vttablet/tabletmanager/restore.go:278-286 | A GTID that does not decode returns the decoder's error, before any command is sent; the target GTID is checked first. |
| Catchup.CatchupCommands | go/vt/vttablet/tabletmanager/restore.go:287-337 | The first command list stops replication, points at the binlog server and replays up to just before the last GTID of the target. The reset list follows exactly when that list succeeded and the poll caught up. |
| Catchup.CatchupNilMeans | go/vt/vttablet/tabletmanager/restore.go:298-345 | The catch-up returns nil exactly when the first list succeeded and either (a) the poll caught up and the reset succeeded, or (b) the poll did not catch up and wrapping nil gives nil. |
| Catchup.CatchupTimeoutLooksLikeSuccess | go/vt/vttablet/tabletmanager/restore.go:342-344 | If wrapping nil gives nil, a poll that times out makes the catch-up return nil without ever resetting replication. |
| Pitr.RestoreToTimeSkipped | go/vt/vttablet/tabletmanager/restore.go:195-198 | Without a binlog host, a positive port and a user, PITR does nothing and returns nil. |
| Pitr.RestoreToTimeStreamsFromPos | go/vt/vttablet/tabletmanager/restore.go:200-202 | With the settings present, PITR first streams from the restored position and always ends. |
| Pitr.RestoreToTimeNoQualifyingEvent | go/vt/vttablet/tabletmanager/restore.go:202-205 | Without a qualifying event, PITR fails with FAILED_PRECONDITION (or panics after a stream error) and sends no command. |
| Pitr.RestoreToTimeCatchesUpToFirstQualifying | go/vt/vttablet/tabletmanager/restore.go:202-214 | With a first qualifying event, PITR catches up to its GTID bounded by the last GTID before it, and succeeds exactly when the catch-up does. |
| Pitr.RestoreToTimeExample | go/vt/vttablet/tabletmanager/restore.go:246-255 | One event at t=100 with GTID "G100" and restore time 95: the catch-up runs to ("G100", ""). |
| Reattach.WaitForChangeOkIff | go/vt/vttablet/tabletmanager/restore.go:423-438 | The wait returns nil exactly at a status whose position differs from the restored one, read while the context was live, after statuses all equal to it. |
| Reattach.WaitForChangeErrors | go/vt/vttablet/tabletmanager/restore.go:424-431 | An error from the wait is the context's error or a failed status read wrapped as "can't get replication status". |
| Reattach.StartReplicationResetsFirst | go/vt/vttablet/tabletmanager/restore.go:349-360 | Replication is reset first. The position is then set exactly when the reset succeeded. A failed reset is an error. |
| Reattach.StartReplicationWithoutOtherMaster | go/vt/vttablet/tabletmanager/restore.go:362-383 | A shard without a master, or whose master is this tablet, ends with nil after reset and set-position. |
| Reattach.StartReplicationMasterUnreachable | go/vt/vttablet/tabletmanager/restore.go:384-415 | When the master's position cannot be read, the reattachment still succeeds after fixing semi-sync and setting the master. |
| Reattach.StartReplicationWaitsForMovement | go/vt/vttablet/tabletmanager/restore.go:405-438 | When the master's position differs from the restored one, the reattachment succeeds exactly when the wait sees the local position move. |
| Reattach.StartReplicationMasterIsRecorded | go/vt/vttablet/tabletmanager/restore.go:362-397 | `SetMaster` is called only with the shard's recorded master, other than this tablet, using that tablet's MySQL host and port, with stop-before false and start-after true. |
| RestoreProperties.AttemptedSteps | go/vt/vttablet/tabletmanager/restore.go:119-188 | From the retry loop on:<br>• the log starts with the flip to RESTORE;<br>• the type ends as the last one persisted;<br>• the number of restore calls is the number the loop made;<br>• every restore call uses the same parameters;<br>• a SNAPSHOT keyspace only streams, executes and updates its type. |
| RestoreProperties.RestorePublishesItsType | go/vt/vttablet/tabletmanager/restore.go:79-188 | Every restore begins by persisting RESTORE, and the type it ends with is the last one it persisted. |
| RestoreProperties.RestoreStopsBeforeAnyAttempt | go/vt/vttablet/tabletmanager/restore.go:90-100 | A failed keyspace lookup, or a SNAPSHOT keyspace without a base keyspace, returns that error before any restore call, with the type left at RESTORE. |
| RestoreProperties.RestoreAttempts | go/vt/vttablet/tabletmanager/restore.go:88-137 | Every restore call carries:<br>• the restore keyspace;<br>• the tablet's shard;<br>• the metadata of the original type;<br>• the snapshot time.<br>The number of calls is the retry loop's. |
| RestoreProperties.RestoreOnceWithoutInterval | go/vt/vttablet/tabletmanager/restore.go:121-124 | With a zero interval, exactly one restore call is made. |
| RestoreProperties.RestoreCancelledWhileWaiting | go/vt/vttablet/tabletmanager/restore.go:132-134 | A context that ends while waiting returns its error with the type at RESTORE and no replication command. |
| RestoreProperties.RestoreBenignBackupErrors | go/vt/vttablet/tabletmanager/restore.go:161-188 | Without a snapshot time, "no backup" or "existing database" is accepted: the next and last persisted type is the final type, and the restore returns nil. |
| RestoreProperties.RestoreFatalBackupError | go/vt/vttablet/tabletmanager/restore.go:168-173 | Any other engine error, without a snapshot time, persists the original type and returns the error wrapped as "Can't restore backup", with no replication command. |
| RestoreProperties.RestoreNoCompleteBackupWithoutInterval | go/vt/vttablet/tabletmanager/restore.go:121-173 | With a zero interval, "no complete backup" is fatal: the original type is restored and the wrapped error returned. |
| RestoreProperties.RestoreReattachesAfterBackup | go/vt/vttablet/tabletmanager/restore.go:152-160 | A NORMAL keyspace whose backup restored reattaches from the manifest's position with the original type. On success it persists the final type. On failure it returns the reattachment's error at RESTORE. |
| RestoreProperties.RestoreSnapshotNeverReattaches | go/vt/vttablet/tabletmanager/restore.go:155-158 | A SNAPSHOT keyspace never sets a replication position, fixes semi-sync or sets a master. |
| RestoreProperties.RestorePitrErrorIsSoft | go/vt/vttablet/tabletmanager/restore.go:144-149 | Any PITR error makes the restore return nil with the type left at RESTORE and no reattachment. |
| RestoreProperties.RestorePitrMasksBackupError | go/vt/vttablet/tabletmanager/restore.go:144-150 | With a snapshot time and PITR skipped, the engine's error is discarded. Only a NORMAL keyspace's reattachment can still fail the restore, and a SNAPSHOT keyspace always returns nil. |
| RestoreProperties.SettleOk | go/vt/vttablet/tabletmanager/restore.go:151-188 | A settled restore that returns nil ends at the final type, persisted last. |
| RestoreProperties.RestoreSuccessFinalType | go/vt/vttablet/tabletmanager/restore.go:175-188 | A successful restore without a snapshot time ends at the final type, persisted last. An original type other than BACKUP or RESTORE is kept. |
| RestoreProperties.RestoreNilFinalType | go/vt/vttablet/tabletmanager/restore.go:143-188 | Every restore that returns nil, with or without a snapshot time. If PITR ran after a restored backup and returned an error, the type stays RESTORE. Otherwise the type is the final type, persisted last. |
| RestoreProperties.RestoreDataGuards | go/vt/vttablet/tabletmanager/restore.go:67-74 | A lock error, or a missing `my.cnf`, returns that error without touching the tablet. |
| TabletManager.TabletManager.constructor | go/vt/vttablet/tabletmanager/restore.go:67 | A manager with the given tablet, flags and collaborators, an empty log, and the invariant holding. |
| TabletManager.TabletManager.ChangeType | go/vt/vttablet/tabletmanager/restore.go:79-81 | Sets the type in place and persists it, keeping the invariant. |
| TabletManager.TabletManager.CatchupToGtid | go/vt/vttablet/tabletmanager/restore.go:277-346 | Returns the catch-up function's error and appends exactly its commands. |
| TabletManager.TabletManager.RestoreToTimeFromBinlog | go/vt/vttablet/tabletmanager/restore.go:193-215 | Ends as PITR's function does and appends exactly its stream request and commands. |
| TabletManager.TabletManager.StartReplication | go/vt/vttablet/tabletmanager/restore.go:348-441 | Ends as the reattachment function does and appends exactly its calls, keeping the invariant (none of its calls persists a type). |
| TabletManager.TabletManager.Reattachment | go/vt/vttablet/tabletmanager/restore.go:349-421 | The steps of the reattachment: outcome and appended calls are exactly the reattachment function's. |
| TabletManager.TabletManager.WaitForMovement | go/vt/vttablet/tabletmanager/restore.go:423-438 | The wait loop computes the final wait from its first iteration. |
| TabletManager.TabletManager.RetryRestore | go/vt/vttablet/tabletmanager/restore.go:119-137 | The retry loop: ends as the retry function does, having issued exactly as many restore calls as it made. |
| TabletManager.TabletManager.RestoreFromBackup | go/vt/vttablet/tabletmanager/restore.go:119-188 | From the retry loop to the end, outcome, log and type are those of the staged restore function. |
| TabletManager.TabletManager.AfterRetry | go/vt/vttablet/tabletmanager/restore.go:139-188 | From the restored position to the end, outcome, log and type are those of the staged restore function. |
| TabletManager.TabletManager.SettleRestore | go/vt/vttablet/tabletmanager/restore.go:151-188 | The switch on the error and the final type: outcome, log and type are those of the staged restore function. |
| TabletManager.TabletManager.RestoreDataLocked | go/vt/vttablet/tabletmanager/restore.go:78-189 | Outcome, new log and new type are exactly those of the restore function from the old type. |
| TabletManager.TabletManager.RestoreData | go/vt/vttablet/tabletmanager/restore.go:67-76 | Outcome, log and type are those of the entry-point function. The type is again the last one persisted. |

## Left out

- **Timing and concurrency.** Goroutines, channels, `select`, timers, sleeps and context deadlines are not modelled. They become finite answer traces:
  - a context that ends is a flag per wait, or an iteration index (`cancelAt`);
  - a deadline is the end of the sample sequence.

  A loop that would outlast its trace gives `Unfinished`.
- **The poller goroutine.** When the context ends mid-poll, the goroutine sends `false` (restore.go:319-322). The select may then answer with the "error while fetching the current gtid position" message (restore.go:341) rather than the context-timeout one (restore.go:344). The model gives the first message only after a failed read, and the second for every poll that ends without a decisive sample. The two differ only when wrapping nil does not give nil. The goroutine can also send more than once or block after the function returned. Only its first send is modelled.
- **The action lock.** Only its error (`lockErr`) is modelled. The unlock is not. The `my.cnf` check is a flag.
- **Flags** become `Config`. The lookup timeout and the remote-operation timeout are not modelled.
- **Logging**, `println` and formatted log text are not modelled.
- **Error values.**
  - The backup engine, the topology server, MySQL, the tablet manager client and `fixSemiSync` are answer records.
  - Position decoding, `Last`, tablet-type parsing, master eligibility and alias formatting are function parameters in `Deps`.
  - The vterrors package is not part of this model: wrapping is `Wrap` with the nil case as a parameter.
- **Messages.**
  - "Cannot read master tablet" and "can't decode master replication position" keep only their fixed text, without the formatted value.
  - The missing `my.cnf` error is the constant `NoCnf`.
- **Restore parameters.** `Cnf`, `Mysqld`, `Logger` and `HookExtraEnv` are not modelled. `DbName` comes from the tablet record.
- **Positions** are sets of GTIDs. Their encoding for the binlog stream is not modelled.
- **The in-memory tablet record.** `tm.Tablet()` and `updateState` are one `UpdateState` entry in the log plus the class's type field. Reasons and the rest of the tablet record are not modelled.
- **Event timestamps.** Nanoseconds of the restore time are ignored, as the code ignores them. Event timestamps are whole seconds.
