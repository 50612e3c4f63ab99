/** The tablet manager: the object whose restore methods change the
    tablet's type and issue the calls to MySQL, the backup engine and the
    event stream. Each method is proved to do what the corresponding
    function of the orchestration model describes. */
module TabletManager {
  import opened Wrappers
  import opened Topodata
  import opened VtErrors
  import opened Mysql
  import opened Collaborators
  import opened GtidResolver
  import Catchup
  import Pitr
  import Reattach
  import Restore
  import opened RestoreProperties

  class TabletManager {
    /** This tablet's record, the restore flags and the external helpers. */
    const tablet: TabletRecord
    const cfg: Config
    const deps: Deps
    /** Whether the engine configuration file is present. */
    const hasCnf: bool

    /** The tablet's current type. */
    var tabletType: TabletType
    /** The calls issued so far, in order. */
    var actions: seq<Action>

    /** The current type is the one last persisted, once any was. */
    ghost predicate Valid()
      reads this
    {
      LastUpdate(actions).Some? ==> LastUpdate(actions).value == tabletType
    }

    constructor (tablet: TabletRecord, cfg: Config, deps: Deps, hasCnf: bool, tabletType: TabletType)
      ensures this.tablet == tablet && this.cfg == cfg && this.deps == deps && this.hasCnf == hasCnf
      ensures this.tabletType == tabletType && actions == [] && Valid()
    {
      this.tablet := tablet;
      this.cfg := cfg;
      this.deps := deps;
      this.hasCnf := hasCnf;
      this.tabletType := tabletType;
      actions := [];
    }

    /** Sets the type and persists it. */
    method ChangeType(t: TabletType)
      modifies this`tabletType, this`actions
      ensures tabletType == t && actions == old(actions) + [UpdateState(t)] && Valid()
    {
      tabletType := t;
      actions := actions + [UpdateState(t)];
      assert actions[|actions| - 1] == UpdateState(t);
    }

    /** Issues one call that does not change the type. */
    method Issue(a: Action)
      requires !a.UpdateState?
      modifies this`actions
      ensures actions == old(actions) + [a]
    {
      actions := actions + [a];
    }

    /** catchupToGTID. */
    method CatchupToGtid(env: Catchup.CatchupEnv, gtid: string, stopPosGtid: string) returns (err: Option<Err>)
      requires Valid()
      modifies this`actions
      ensures var run := Catchup.CatchupToGtid(cfg, deps, env, gtid, stopPosGtid);
        Returned(err) == run.outcome && actions == old(actions) + run.actions
      ensures Valid()
    {
      CatchupKeepsLastUpdate(actions, cfg, deps, env, gtid, stopPosGtid);
      var gtidParsed := deps.decodePosition(gtid);
      if gtidParsed.Failure? {
        return Some(gtidParsed.error);
      }
      var stopPosGtidParsed := deps.decodePosition(stopPosGtid);
      if stopPosGtidParsed.Failure? {
        return Some(stopPosGtidParsed.error);
      }
      var gtidStr := deps.last(gtidParsed.value);
      var cmds := Catchup.CatchupStmts(cfg, gtidStr);
      Issue(Exec(cmds));
      if env.startErr.Some? {
        return Wrap(env.startErr, "failed to reset slave", deps.wrapNilIsNil);
      }
      var caughtUp := Catchup.PollPosition(env.positions, stopPosGtidParsed.value);
      if caughtUp == Catchup.CaughtUp {
        Issue(Exec(ResetStmts));
        assert actions == old(actions) + [Exec(cmds), Exec(ResetStmts)];
        if env.resetErr.Some? {
          return Wrap(env.resetErr, "failed to reset slave", deps.wrapNilIsNil);
        }
        return None;
      }
      // Both failure answers wrap this method's own error variable, nil here.
      var outer: Option<Err> := None;
      if caughtUp == Catchup.PositionError {
        return Wrap(outer, "error while fetching the current gtid position", deps.wrapNilIsNil);
      }
      return Wrap(outer, "context timeout while restoring upto specified gtid", deps.wrapNilIsNil);
    }

    /** restoreToTimeFromBinlog. */
    method RestoreToTimeFromBinlog(env: Pitr.PitrEnv, pos: Position, restoreTime: VtTime) returns (out: Outcome)
      requires Valid()
      modifies this`actions
      ensures var run := Pitr.RestoreToTime(cfg, deps, env, pos, restoreTime);
        out == run.outcome && actions == old(actions) + run.actions
      ensures Valid()
    {
      if cfg.binlogHost == "" || cfg.binlogPort <= 0 || cfg.binlogUser == "" {
        return Ok;
      }
      PitrKeepsLastUpdate(actions, cfg, deps, env, pos, restoreTime);
      LastUpdateAfterSideCalls(actions, [StreamFrom(pos)]);
      Issue(StreamFrom(pos));
      var resolved := GetGtidFromTimestamp(env.batches, env.ending, restoreTime.seconds);
      if resolved.IndexPanic? {
        return Panicked;
      }
      var gtid, stopPosGtid := resolved.gtid, resolved.stopPos;
      if gtid == "" {
        return Returned(Some(Coded(FAILED_PRECONDITION, Pitr.NoGtidMsg)));
      }
      var err := CatchupToGtid(env.catchup, gtid, stopPosGtid);
      ghost var c := Catchup.CatchupToGtid(cfg, deps, env.catchup, gtid, stopPosGtid);
      AppendAssoc(old(actions), [StreamFrom(pos)], c.actions);
      if err.Some? {
        return Returned(Wrap(err, "unable to replicate upto specified gtid : " + gtid, deps.wrapNilIsNil));
      }
      return Ok;
    }

    /** startReplication; `cancelAt` is the iteration of the final wait from
        which the context is done (never for the background context). None
        of its calls persists a type, so the invariant is kept. */
    method StartReplication(env: Reattach.ReattachEnv, pos: Position, t: TabletType, cancelAt: Option<nat>)
      returns (out: Outcome)
      requires Valid()
      modifies this`actions
      ensures var run := Reattach.StartReplication(deps, tablet.alias, env, pos, t, cancelAt);
        out == run.outcome && actions == old(actions) + run.actions
      ensures Valid()
    {
      ReattachKeepsLastUpdate(actions, deps, tablet.alias, env, pos, t, cancelAt);
      out := Reattachment(env, pos, t, cancelAt);
    }

    /** The steps of startReplication: reset, set the position, look up the
        shard's master, point MySQL at it and wait for the position to move. */
    method Reattachment(env: Reattach.ReattachEnv, pos: Position, t: TabletType, cancelAt: Option<nat>)
      returns (out: Outcome)
      modifies this`actions
      ensures var run := Reattach.StartReplication(deps, tablet.alias, env, pos, t, cancelAt);
        out == run.outcome && actions == old(actions) + run.actions
    {
      ghost var run := Reattach.StartReplication(deps, tablet.alias, env, pos, t, cancelAt);
      var nilIsNil := deps.wrapNilIsNil;
      Issue(Exec(ResetStmts));
      assert actions == old(actions) + [Exec(ResetStmts)];
      if env.resetErr.Some? {
        return Returned(Wrap(env.resetErr, "failed to reset replication", nilIsNil));
      }
      Issue(SetReplicationPosition(pos));
      ghost var positioned := [Exec(ResetStmts)] + [SetReplicationPosition(pos)];
      assert actions == old(actions) + positioned;
      if env.setPositionErr.Some? {
        return Returned(Wrap(env.setPositionErr, "failed to set replication position", nilIsNil));
      }
      if env.shard.Failure? {
        return Returned(Wrap(Some(env.shard.error), "can't read shard", nilIsNil));
      }
      var si := env.shard.value;
      if si.masterAlias.None? {
        return Ok;
      }
      if si.masterAlias.value == tablet.alias {
        return Ok;
      }
      if env.masterTablet.Failure? {
        return Returned(Wrap(Some(env.masterTablet.error), "Cannot read master tablet", nilIsNil));
      }
      var ti := env.masterTablet.value;
      Issue(FixSemiSync(t));
      ghost var fixed := positioned + [FixSemiSync(t)];
      assert actions == old(actions) + fixed;
      if env.semiSyncErr.Some? {
        return Returned(env.semiSyncErr);
      }
      Issue(SetMaster(ti.mysqlHostname, ti.mysqlPort, false, true));
      ghost var attached := fixed + [SetMaster(ti.mysqlHostname, ti.mysqlPort, false, true)];
      assert actions == old(actions) + attached;
      if env.setMasterErr.Some? {
        return Returned(Wrap(env.setMasterErr, "MysqlDaemon.SetMaster failed", nilIsNil));
      }
      if env.masterPosition.Failure? {
        return Ok;
      }
      var masterPos := deps.decodePosition(env.masterPosition.value);
      if masterPos.Failure? {
        return Returned(Wrap(Some(masterPos.error), "can't decode master replication position", nilIsNil));
      }
      if pos != masterPos.value {
        out := WaitForMovement(env.statuses, pos, cancelAt);
        return;
      }
      return Ok;
    }

    /** The wait at the end of startReplication: until the context is done,
        read the replication status, and stop once a read fails or the
        position differs from `pos`. */
    method WaitForMovement(statuses: seq<Result<Position, Err>>, pos: Position, cancelAt: Option<nat>)
      returns (out: Outcome)
      ensures out == Reattach.WaitForChange(statuses, pos, cancelAt, 0, deps.wrapNilIsNil)
    {
      var i := 0;
      while true
        invariant Reattach.WaitForChange(statuses, pos, cancelAt, 0, deps.wrapNilIsNil)
                  == Reattach.WaitForChange(statuses, pos, cancelAt, i, deps.wrapNilIsNil)
        decreases |statuses| - i
      {
        if cancelAt.Some? && cancelAt.value <= i {
          return Returned(Some(ContextDone));
        }
        if i >= |statuses| {
          return Unfinished;
        }
        var status := statuses[i];
        if status.Failure? {
          return Returned(Wrap(Some(status.error), "can't get replication status", deps.wrapNilIsNil));
        }
        if status.value != pos {
          return Ok;
        }
        i := i + 1;
      }
    }

    /** restoreDataLocked. */
    method RestoreDataLocked(env: Restore.RestoreEnv, interval: int, deleteBeforeRestore: bool) returns (out: Outcome)
      requires Valid()
      modifies this`tabletType, this`actions
      ensures var r := Restore.RestoreDataLocked(cfg, deps, tablet, old(tabletType), env, interval, deleteBeforeRestore);
        out == r.outcome && actions == old(actions) + r.actions && tabletType == r.tabletType
      ensures Valid()
    {
      var originalType := tabletType;
      ChangeType(RESTORE);
      var localMetadata := Restore.LocalMetadataValues(deps, tablet, originalType);

      var keyspace := tablet.keyspace;
      if env.keyspace.Failure? {
        return Returned(Some(env.keyspace.error));
      }
      var info := env.keyspace.value;
      if info.keyspaceType == SNAPSHOT {
        if info.baseKeyspace == "" {
          return Returned(Some(Coded(INVALID_ARGUMENT, Restore.NoBaseKeyspaceMsg(tablet.keyspace))));
        }
        keyspace := info.baseKeyspace;
      }
      var params := RestoreParams(cfg.restoreConcurrency, localMetadata, deleteBeforeRestore,
                                  tablet.dbName, keyspace, tablet.shard, info.snapshotTime);
      assert Restore.RestoreDataLocked(cfg, deps, tablet, originalType, env, interval, deleteBeforeRestore)
          == Restore.Attempted(cfg, deps, tablet, originalType, env, info, params, interval);
      out := RestoreFromBackup(env, interval, info, params, originalType, old(actions));
    }

    /** The rest of restoreDataLocked, once the type is RESTORE and the
        restore parameters are known: the retry loop, PITR when the keyspace
        has a snapshot time, and the end of the restore. */
    method RestoreFromBackup(env: Restore.RestoreEnv, interval: int, info: KeyspaceInfo, params: RestoreParams,
                             originalType: TabletType, ghost prefix: seq<Action>)
      returns (out: Outcome)
      requires Valid() && actions == prefix + [UpdateState(RESTORE)] && tabletType == RESTORE
      modifies this`tabletType, this`actions
      ensures var r := Restore.Attempted(cfg, deps, tablet, originalType, env, info, params, interval);
        out == r.outcome && actions == prefix + r.actions && tabletType == r.tabletType
      ensures Valid()
    {
      var retried := RetryRestore(params, env.attempts, interval);
      if retried.RetryUnfinished? {
        return Unfinished;
      }
      if retried.RetryCancelled? {
        return Returned(Some(ContextDone));
      }
      RestoreProperties.AttemptedRestored(cfg, deps, tablet, originalType, env, info, params, interval);
      out := AfterRetry(env, info, retried.result, originalType, prefix, Restore.Attempts(params, retried.calls));
    }

    /** restoreDataLocked after the retry loop ended with `backup`: PITR when
        the keyspace has a snapshot time, then the end of the restore. */
    method AfterRetry(env: Restore.RestoreEnv, info: KeyspaceInfo, backup: Restore.BackupResult,
                      originalType: TabletType, ghost prefix: seq<Action>, ghost acts0: seq<Action>)
      returns (out: Outcome)
      requires Valid() && actions == prefix + acts0 && tabletType == RESTORE
      modifies this`tabletType, this`actions
      ensures var pos := Restore.PositionOf(backup);
        var r := Restore.AfterBackup(cfg, deps, originalType, info, backup.err, acts0, Restore.PitrRun(cfg, deps, env, info, pos),
                                     Reattach.StartReplication(deps, tablet.alias, env.reattach, pos, originalType, None));
        out == r.outcome && actions == prefix + r.actions && tabletType == r.tabletType
      ensures Valid()
    {
      var pos := ZeroPosition;
      if backup.manifest.Some? {
        pos := backup.manifest.value.position;
      }
      var err := backup.err;
      ghost var acts := acts0;
      ghost var reattach := Reattach.StartReplication(deps, tablet.alias, env.reattach, pos, originalType, None);
      ghost var p := Restore.PitrRun(cfg, deps, env, info, pos);
      ghost var whole := Restore.AfterBackup(cfg, deps, originalType, info, err, acts, p, reattach);
      // With a snapshot time, the PITR result replaces the backup error.
      if info.snapshotTime.Some? {
        var pitr := RestoreToTimeFromBinlog(env.pitr, pos, info.snapshotTime.value);
        AppendAssoc(prefix, acts, p.actions);
        acts := acts + p.actions;
        if pitr.Panicked? || pitr.Unfinished? {
          return pitr;
        }
        if pitr.err.Some? {
          return Ok;
        }
        err := None;
      }
      assert whole == Restore.Settle(cfg, deps, originalType, info.keyspaceType, err, acts, reattach);
      out := SettleRestore(env, info.keyspaceType, pos, err, originalType, prefix, acts);
    }

    /** The end of restoreDataLocked: the switch on the backup (or PITR)
        error, reattachment for a NORMAL keyspace, and the final type. */
    method SettleRestore(env: Restore.RestoreEnv, keyspaceType: KeyspaceType, pos: Position, err: Option<Err>,
                         originalType: TabletType, ghost prefix: seq<Action>, ghost acts0: seq<Action>)
      returns (out: Outcome)
      requires Valid() && actions == prefix + acts0 && tabletType == RESTORE
      modifies this`tabletType, this`actions
      ensures var s := Reattach.StartReplication(deps, tablet.alias, env.reattach, pos, originalType, None);
        var r := Restore.Settle(cfg, deps, originalType, keyspaceType, err, acts0, s);
        out == r.outcome && actions == prefix + r.actions && tabletType == r.tabletType
      ensures Valid()
    {
      ghost var s := Reattach.StartReplication(deps, tablet.alias, env.reattach, pos, originalType, None);
      ghost var acts := acts0;
      ghost var whole := Restore.Settle(cfg, deps, originalType, keyspaceType, err, acts, s);
      ghost var done := Restore.Finish(cfg, deps, originalType, acts);
      if err.None? {
        if keyspaceType == NORMAL {
          var reattached := StartReplication(env.reattach, pos, originalType, None);
          if reattached != Ok {
            return reattached;
          }
          done := Restore.Finish(cfg, deps, originalType, acts + s.actions);
          AppendAssoc(prefix, acts, s.actions);
          acts := acts + s.actions;
        }
      } else if err == Some(NoBackup) {
      } else if err == Some(ExistingDB) {
      } else {
        // Any other error reverts the type and is returned wrapped.
        ChangeType(originalType);
        AppendAssoc(prefix, acts, [UpdateState(originalType)]);
        return Returned(Wrap(err, Restore.FailedRestoreMsg, deps.wrapNilIsNil));
      }
      assert whole == done;

      var finalType := originalType;
      if (originalType == BACKUP || originalType == RESTORE) && cfg.initTabletType != "" {
        var initType := deps.parseTabletType(cfg.initTabletType);
        if initType.Some? {
          finalType := initType.value;
        }
      }
      ChangeType(finalType);
      AppendAssoc(prefix, acts, [UpdateState(finalType)]);
      return Ok;
    }

    /** The loop of restoreDataLocked that asks the backup engine for a
        restore until a backup exists, unless told to give up at once
        (`interval` zero), waiting `interval` between attempts. */
    method RetryRestore(params: RestoreParams, attempts: seq<Restore.Attempt>, interval: int)
      returns (r: Restore.RetryResult)
      requires Valid()
      modifies this`actions
      ensures r == Restore.RetryLoop(attempts, interval, 0)
      ensures actions == old(actions) + Restore.Repeat(RestoreBackup(params), Restore.CallsMade(r, |attempts|))
      ensures Valid()
    {
      var i := 0;
      while true
        invariant 0 <= i <= |attempts|
        invariant actions == old(actions) + Restore.Repeat(RestoreBackup(params), i)
        invariant Restore.RetryLoop(attempts, interval, 0) == Restore.RetryLoop(attempts, interval, i)
        decreases |attempts| - i
      {
        LastUpdateAfterRestores(old(actions), params, i);
        LastUpdateAfterRestores(old(actions), params, i + 1);
        if i >= |attempts| {
          return Restore.RetryUnfinished;
        }
        AppendRepeat(params, i, old(actions));
        Issue(RestoreBackup(params));
        var backup := attempts[i].result;
        i := i + 1;
        if interval == 0 {
          return Restore.Restored(backup, i);
        }
        if backup.err != Some(NoBackup) && backup.err != Some(NoCompleteBackup) {
          return Restore.Restored(backup, i);
        }
        if attempts[i - 1].ctxDoneDuringWait {
          return Restore.RetryCancelled(i);
        }
      }
    }

    /** RestoreData: takes the action lock (whose failure is `lockErr`) and
        checks for the engine configuration before restoring. */
    method RestoreData(lockErr: Option<Err>, env: Restore.RestoreEnv, interval: int, deleteBeforeRestore: bool)
      returns (out: Outcome)
      requires Valid()
      modifies this`tabletType, this`actions
      ensures var r := Restore.RestoreData(cfg, deps, tablet, old(tabletType), lockErr, hasCnf, env, interval, deleteBeforeRestore);
        out == r.outcome && actions == old(actions) + r.actions && tabletType == r.tabletType
      ensures Valid()
    {
      if lockErr.Some? {
        return Returned(lockErr);
      }
      if !hasCnf {
        return Returned(Some(NoCnf));
      }
      out := RestoreDataLocked(env, interval, deleteBeforeRestore);
    }
  }

  lemma AppendAssoc(a: seq<Action>, b: seq<Action>, c: seq<Action>)
    ensures a + b + c == a + (b + c)
  {
  }

  lemma AppendRepeat(p: RestoreParams, n: nat, pre: seq<Action>)
    ensures pre + Restore.Repeat(RestoreBackup(p), n) + [RestoreBackup(p)] == pre + Restore.Repeat(RestoreBackup(p), n + 1)
  {
    var r := Restore.Repeat(RestoreBackup(p), n + 1);
    assert r == Restore.Repeat(RestoreBackup(p), n) + [RestoreBackup(p)];
  }
}
