/** The restore orchestration: everything restoreDataLocked decides, as
    functions of the tablet, the configuration and the collaborators' answers. */
module Restore {
  import opened Wrappers
  import opened Topodata
  import opened VtErrors
  import opened Mysql
  import opened Collaborators
  import opened GtidResolver
  import opened Pitr
  import opened Reattach

  /** What a backup restore attempt hands back. */
  datatype Manifest = Manifest(position: Position)
  datatype BackupResult = BackupResult(manifest: Option<Manifest>, err: Option<Err>)

  /** One restore attempt and whether the context was done during the wait
      that would follow it. */
  datatype Attempt = Attempt(result: BackupResult, ctxDoneDuringWait: bool)

  /** What the collaborators answer over a whole restore. */
  datatype RestoreEnv = RestoreEnv(
    keyspace: Result<KeyspaceInfo, Err>,
    attempts: seq<Attempt>,
    pitr: PitrEnv,
    reattach: ReattachEnv)

  /** The end of a restore: its outcome, the calls it issued and the type the
      tablet is left with. */
  datatype Restoration = Restoration(outcome: Outcome, actions: seq<Action>, tabletType: TabletType)

  // ---------------------------------------------------------------- metadata

  /** The local metadata stamped on the restored instance. */
  function LocalMetadataValues(deps: Deps, tablet: TabletRecord, tabletType: TabletType): (m: map<string, string>)
    ensures m.Keys == {"Alias", "ClusterAlias", "DataCenter", "PromotionRule"}
    ensures m["Alias"] == deps.aliasString(tablet.alias)
    ensures m["ClusterAlias"] == tablet.keyspace + "." + tablet.shard
    ensures m["DataCenter"] == tablet.alias.cell
    ensures m["PromotionRule"] == "neutral" <==> deps.masterEligible(tabletType)
    ensures m["PromotionRule"] in {"neutral", "must_not"}
  {
    var values := map[
      "Alias" := deps.aliasString(tablet.alias),
      "ClusterAlias" := tablet.keyspace + "." + tablet.shard,
      "DataCenter" := tablet.alias.cell,
      "PromotionRule" := "must_not"];
    if deps.masterEligible(tabletType) then values["PromotionRule" := "neutral"] else values
  }

  // ------------------------------------------------------ keyspace selection

  /** The error text for a SNAPSHOT keyspace `ks` without a base keyspace. */
  function NoBaseKeyspaceMsg(ks: string): string {
    "snapshot keyspace " + ks + " has no base_keyspace set"
  }

  /** The keyspace whose backups are restored: the base keyspace of a
      SNAPSHOT keyspace, which must be set, or the tablet's own keyspace. */
  function RestoreKeyspace(own: string, info: KeyspaceInfo): (r: Result<string, Err>)
    ensures r.Failure? <==> info.keyspaceType == SNAPSHOT && info.baseKeyspace == ""
    ensures r.Failure? ==> r.error == Coded(INVALID_ARGUMENT, NoBaseKeyspaceMsg(own))
    ensures r.Success? && info.keyspaceType == SNAPSHOT ==> r.value == info.baseKeyspace != ""
    ensures r.Success? && info.keyspaceType == NORMAL ==> r.value == own
  {
    if info.keyspaceType == SNAPSHOT then
      if info.baseKeyspace == "" then Failure(Coded(INVALID_ARGUMENT, NoBaseKeyspaceMsg(own)))
      else Success(info.baseKeyspace)
    else Success(own)
  }

  // -------------------------------------------------------------- retry loop

  /** The two backup errors the loop waits out. */
  predicate Retriable(err: Option<Err>) {
    err == Some(NoBackup) || err == Some(NoCompleteBackup)
  }

  /** How the retry loop ends: with the result of its `calls`-th attempt, with
      the context done during the wait after it, or with the trace exhausted. */
  datatype RetryResult = Restored(result: BackupResult, calls: nat) | RetryCancelled(calls: nat) | RetryUnfinished

  /** The number of restore attempts the loop made, `total` being the number
      of answers in the trace. */
  function CallsMade(r: RetryResult, total: nat): nat {
    if r.RetryUnfinished? then total else r.calls
  }

  /** The retry loop from attempt `i` on. */
  function RetryLoop(attempts: seq<Attempt>, interval: int, i: nat): RetryResult
    decreases |attempts| - i
  {
    if i >= |attempts| then RetryUnfinished
    else
      var r := attempts[i].result;
      if interval == 0 then Restored(r, i + 1)
      else if !Retriable(r.err) then Restored(r, i + 1)
      else if attempts[i].ctxDoneDuringWait then RetryCancelled(i + 1)
      else RetryLoop(attempts, interval, i + 1)
  }

  /** Attempts `i` to `n` - 1 were retried: the interval is set, they failed
      with a retriable error, and the wait after them completed. */
  ghost predicate RetriedThrough(attempts: seq<Attempt>, interval: int, i: nat, n: nat) {
    n <= |attempts| &&
    forall j :: i <= j < n ==>
      interval != 0 && Retriable(attempts[j].result.err) && !attempts[j].ctxDoneDuringWait
  }

  /** The loop ends with the `n`-th attempt's result exactly when all attempts
      before it were retried and the `n`-th is final: the interval is zero or
      its error is not retriable. */
  lemma {:induction false} RetryLoopRestoredIff(attempts: seq<Attempt>, interval: int, i: nat, n: nat)
    requires i < n <= |attempts|
    ensures RetryLoop(attempts, interval, i) == Restored(attempts[n - 1].result, n) <==>
      RetriedThrough(attempts, interval, i, n - 1)
      && (interval == 0 || !Retriable(attempts[n - 1].result.err))
    decreases |attempts| - i
  {
    if i < |attempts| && i + 1 < n && interval != 0 && Retriable(attempts[i].result.err) && !attempts[i].ctxDoneDuringWait {
      RetryLoopRestoredIff(attempts, interval, i + 1, n);
    } else if i < |attempts| && interval != 0 && Retriable(attempts[i].result.err) && !attempts[i].ctxDoneDuringWait {
      RetryLoopBounds(attempts, interval, i + 1);
    }
  }

  /** The loop never makes more calls than there are attempts, and a result
      it returns is that of its last call. */
  lemma {:induction false} RetryLoopBounds(attempts: seq<Attempt>, interval: int, i: nat)
    ensures var r := RetryLoop(attempts, interval, i);
      (r.Restored? ==> i < r.calls <= |attempts| && r.result == attempts[r.calls - 1].result)
      && (r.RetryCancelled? ==> i < r.calls <= |attempts|)
    decreases |attempts| - i
  {
    if i < |attempts| && interval != 0 && Retriable(attempts[i].result.err) && !attempts[i].ctxDoneDuringWait {
      RetryLoopBounds(attempts, interval, i + 1);
    }
  }

  /** The loop returns the context's error after the `n`-th attempt exactly
      when all attempts before it were retried and the context was done
      during the wait after a retriable `n`-th attempt. */
  lemma {:induction false} RetryLoopCancelledIff(attempts: seq<Attempt>, interval: int, i: nat, n: nat)
    requires i < n <= |attempts|
    ensures RetryLoop(attempts, interval, i) == RetryCancelled(n) <==>
      RetriedThrough(attempts, interval, i, n - 1)
      && interval != 0 && Retriable(attempts[n - 1].result.err) && attempts[n - 1].ctxDoneDuringWait
    decreases |attempts| - i
  {
    if i < |attempts| && i + 1 < n && interval != 0 && Retriable(attempts[i].result.err) && !attempts[i].ctxDoneDuringWait {
      RetryLoopCancelledIff(attempts, interval, i + 1, n);
    } else if i < |attempts| && interval != 0 && Retriable(attempts[i].result.err) && !attempts[i].ctxDoneDuringWait {
      RetryLoopBounds(attempts, interval, i + 1);
    }
  }

  /** With a zero interval the backup is restored exactly once. */
  lemma RetryLoopOnceWithoutInterval(attempts: seq<Attempt>)
    requires |attempts| > 0
    ensures RetryLoop(attempts, 0, 0) == Restored(attempts[0].result, 1)
  {
  }

  // ---------------------------------------------------------- classification

  /** What the backup outcome leads to. */
  datatype Decision = Reattach | Proceed | Fail

  /** The classification of the backup error (the PITR error when PITR ran). */
  function Classify(err: Option<Err>, keyspaceType: KeyspaceType): (d: Decision)
    ensures d == Reattach <==> err.None? && keyspaceType == NORMAL
    ensures d == Proceed <==> (err.None? && keyspaceType != NORMAL) || err == Some(NoBackup) || err == Some(ExistingDB)
    ensures d == Fail <==> err.Some? && err.value != NoBackup && err.value != ExistingDB
  {
    match err
    case None => if keyspaceType == NORMAL then Reattach else Proceed
    case Some(NoBackup) => Proceed
    case Some(ExistingDB) => Proceed
    case Some(_) => Fail
  }

  /** The type the tablet returns to: its original type, except that a
      BACKUP or RESTORE tablet takes the configured initial type when that is
      set and parses. */
  function FinalType(original: TabletType, initTabletType: string, parse: string -> Option<TabletType>): (t: TabletType)
    ensures (original == BACKUP || original == RESTORE) && initTabletType != "" && parse(initTabletType).Some?
            ==> t == parse(initTabletType).value
    ensures !((original == BACKUP || original == RESTORE) && initTabletType != "" && parse(initTabletType).Some?)
            ==> t == original
  {
    if (original == BACKUP || original == RESTORE) && initTabletType != "" then
      match parse(initTabletType)
      case Some(initType) => initType
      case None => original
    else original
  }

  // ----------------------------------------------------------- the whole run

  /** `n` copies of the same call. */
  function Repeat(a: Action, n: nat): (r: seq<Action>)
    ensures |r| == n && forall j :: 0 <= j < n ==> r[j] == a
  {
    if n == 0 then [] else [a] + Repeat(a, n - 1)
  }

  function RestoreParamsFor(cfg: Config, deps: Deps, tablet: TabletRecord, original: TabletType,
                            keyspace: string, info: KeyspaceInfo, deleteBeforeRestore: bool): RestoreParams
  {
    RestoreParams(cfg.restoreConcurrency, LocalMetadataValues(deps, tablet, original), deleteBeforeRestore,
                  tablet.dbName, keyspace, tablet.shard, info.snapshotTime)
  }

  const FailedRestoreMsg := "Can't restore backup"

  /** The last step: the final type is set and persisted. */
  function Finish(cfg: Config, deps: Deps, original: TabletType, acts: seq<Action>): Restoration {
    var t := FinalType(original, cfg.initTabletType, deps.parseTabletType);
    Restoration(Ok, acts + [UpdateState(t)], t)
  }

  /** The switch on the error, after the backup and, if it ran, PITR;
      `reattach` is what startReplication does if it is called. */
  function Settle(cfg: Config, deps: Deps, original: TabletType, keyspaceType: KeyspaceType, err: Option<Err>,
                  acts: seq<Action>, reattach: Run): Restoration
  {
    match Classify(err, keyspaceType)
    case Fail =>
      Restoration(Returned(Wrap(err, FailedRestoreMsg, deps.wrapNilIsNil)), acts + [UpdateState(original)], original)
    case Proceed => Finish(cfg, deps, original, acts)
    case Reattach =>
      if reattach.outcome != Ok then Restoration(reattach.outcome, acts + reattach.actions, RESTORE)
      else Finish(cfg, deps, original, acts + reattach.actions)
  }

  /** After the retry loop: PITR (whose run is `pitr`) when the keyspace has
      a snapshot time, its result replacing the backup error; a PITR error
      ends the restore with nil. */
  function AfterBackup(cfg: Config, deps: Deps, original: TabletType, info: KeyspaceInfo, err: Option<Err>,
                       acts: seq<Action>, pitr: Run, reattach: Run): Restoration
  {
    if info.snapshotTime.Some? then
      match pitr.outcome
      case Returned(Some(_)) => Restoration(Ok, acts + pitr.actions, RESTORE)
      case Returned(None) => Settle(cfg, deps, original, info.keyspaceType, None, acts + pitr.actions, reattach)
      case Panicked => Restoration(Panicked, acts + pitr.actions, RESTORE)
      case Unfinished => Restoration(Unfinished, acts + pitr.actions, RESTORE)
    else Settle(cfg, deps, original, info.keyspaceType, err, acts, reattach)
  }

  /** The restored position: the manifest's, or the zero position. */
  function PositionOf(b: BackupResult): Position {
    if b.manifest.Some? then b.manifest.value.position else ZeroPosition
  }

  /** PITR from `pos`, for a keyspace with a snapshot time. */
  function PitrRun(cfg: Config, deps: Deps, env: RestoreEnv, info: KeyspaceInfo, pos: Position): Run {
    if info.snapshotTime.Some? then RestoreToTime(cfg, deps, env.pitr, pos, info.snapshotTime.value) else Run(Ok, [])
  }

  /** The calls before PITR: the type flip and `n` restore attempts. */
  function Attempts(params: RestoreParams, n: nat): seq<Action> {
    [UpdateState(RESTORE)] + Repeat(RestoreBackup(params), n)
  }

  /** The retry loop with its calls, then the rest of the restore. */
  function Attempted(cfg: Config, deps: Deps, tablet: TabletRecord, original: TabletType, env: RestoreEnv,
                     info: KeyspaceInfo, params: RestoreParams, interval: int): Restoration
  {
    match RetryLoop(env.attempts, interval, 0)
    case RetryUnfinished => Restoration(Unfinished, Attempts(params, |env.attempts|), RESTORE)
    case RetryCancelled(n) => Restoration(Returned(Some(ContextDone)), Attempts(params, n), RESTORE)
    case Restored(backup, n) =>
      var pos := PositionOf(backup);
      AfterBackup(cfg, deps, original, info, backup.err, Attempts(params, n), PitrRun(cfg, deps, env, info, pos),
                  StartReplication(deps, tablet.alias, env.reattach, pos, original, None))
  }

  /** restoreDataLocked for a tablet whose type is `original`. */
  function RestoreDataLocked(cfg: Config, deps: Deps, tablet: TabletRecord, original: TabletType,
                             env: RestoreEnv, interval: int, deleteBeforeRestore: bool): Restoration
  {
    match env.keyspace
    case Failure(e) => Restoration(Returned(Some(e)), [UpdateState(RESTORE)], RESTORE)
    case Success(info) =>
      match RestoreKeyspace(tablet.keyspace, info)
      case Failure(e) => Restoration(Returned(Some(e)), [UpdateState(RESTORE)], RESTORE)
      case Success(keyspace) =>
        Attempted(cfg, deps, tablet, original, env, info,
                  RestoreParamsFor(cfg, deps, tablet, original, keyspace, info, deleteBeforeRestore), interval)
  }

  /** RestoreData: the action lock and the engine configuration are checked
      before anything else. */
  function RestoreData(cfg: Config, deps: Deps, tablet: TabletRecord, current: TabletType, lockErr: Option<Err>,
                       hasCnf: bool, env: RestoreEnv, interval: int, deleteBeforeRestore: bool): Restoration
  {
    if lockErr.Some? then Restoration(Returned(lockErr), [], current)
    else if !hasCnf then Restoration(Returned(Some(NoCnf)), [], current)
    else RestoreDataLocked(cfg, deps, tablet, current, env, interval, deleteBeforeRestore)
  }
}
