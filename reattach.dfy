/** Reattachment after a restore: reset replication, set the restored
    position, then find the shard's master and replicate from it. */
module Reattach {
  import opened Wrappers
  import opened Topodata
  import opened VtErrors
  import opened Mysql
  import opened Collaborators

  /** The answers of MySQL, the topology server and the master tablet, in the
      order they are asked. `statuses` are the positions read by successive
      replication status calls of the final wait. */
  datatype ReattachEnv = ReattachEnv(
    resetErr: Option<Err>,
    setPositionErr: Option<Err>,
    shard: Result<ShardInfo, Err>,
    masterTablet: Result<TabletInfo, Err>,
    semiSyncErr: Option<Err>,
    setMasterErr: Option<Err>,
    masterPosition: Result<string, Err>,
    statuses: seq<Result<Position, Err>>)


  /** The final wait from iteration `i` on: the context is done from
      iteration `cancelAt` on (never if None); the wait ends once a status
      read fails or shows a position other than `pos`. */
  function WaitForChange(statuses: seq<Result<Position, Err>>, pos: Position, cancelAt: Option<nat>, i: nat, nilIsNil: bool): Outcome
    decreases |statuses| - i
  {
    if cancelAt.Some? && cancelAt.value <= i then Returned(Some(ContextDone))
    else if i >= |statuses| then Unfinished
    else match statuses[i]
      case Failure(e) => Returned(Wrap(Some(e), "can't get replication status", nilIsNil))
      case Success(p) => if p != pos then Ok else WaitForChange(statuses, pos, cancelAt, i + 1, nilIsNil)
  }

  /** The wait returns nil only at a status whose position differs from
      `pos`, read before the context ended and after statuses all equal to
      `pos`; and it returns nil at the first such status whenever no read
      failed and the context was live before it. */
  lemma {:induction false} WaitForChangeOkIff(statuses: seq<Result<Position, Err>>, pos: Position, cancelAt: Option<nat>, i: nat, nilIsNil: bool)
    ensures WaitForChange(statuses, pos, cancelAt, i, nilIsNil) == Ok <==>
      exists k :: i <= k < |statuses| && statuses[k].Success? && statuses[k].value != pos
                  && (cancelAt.None? || k < cancelAt.value)
                  && forall j :: i <= j < k ==> statuses[j] == Success(pos)
    decreases |statuses| - i
  {
    if cancelAt.Some? && cancelAt.value <= i {
    } else if i >= |statuses| {
    } else {
      WaitForChangeOkIff(statuses, pos, cancelAt, i + 1, nilIsNil);
      if statuses[i] == Success(pos) {
        if exists k :: i <= k < |statuses| && statuses[k].Success? && statuses[k].value != pos
                       && (cancelAt.None? || k < cancelAt.value)
                       && forall j :: i <= j < k ==> statuses[j] == Success(pos) {
          var k :| i <= k < |statuses| && statuses[k].Success? && statuses[k].value != pos
                   && (cancelAt.None? || k < cancelAt.value)
                   && forall j :: i <= j < k ==> statuses[j] == Success(pos);
          assert k != i;
        }
      }
    }
  }

  /** The wait never ends in an error other than the context's or a wrapped
      status error. */
  lemma {:induction false} WaitForChangeErrors(statuses: seq<Result<Position, Err>>, pos: Position, cancelAt: Option<nat>, i: nat, nilIsNil: bool)
    ensures var o := WaitForChange(statuses, pos, cancelAt, i, nilIsNil);
      o.Returned? && o.err.Some? ==>
        o.err.value == ContextDone
        || exists k :: i <= k < |statuses| && statuses[k].Failure?
                       && o.err.value == Wrapped(statuses[k].error, "can't get replication status")
    decreases |statuses| - i
  {
    if cancelAt.Some? && cancelAt.value <= i {
    } else if i >= |statuses| {
    } else if statuses[i] == Success(pos) {
      WaitForChangeErrors(statuses, pos, cancelAt, i + 1, nilIsNil);
    }
  }

  /** startReplication. `self` is this tablet's alias, `tabletType` the
      type the semi-sync fix is made for. */
  function StartReplication(deps: Deps, self: TabletAlias, env: ReattachEnv, pos: Position,
                            tabletType: TabletType, cancelAt: Option<nat>): Run
  {
    var nilIsNil := deps.wrapNilIsNil;
    var reset := [Exec(ResetStmts)];
    if env.resetErr.Some? then Run(Returned(Wrap(env.resetErr, "failed to reset replication", nilIsNil)), reset)
    else
      var positioned := reset + [SetReplicationPosition(pos)];
      if env.setPositionErr.Some? then
        Run(Returned(Wrap(env.setPositionErr, "failed to set replication position", nilIsNil)), positioned)
      else match env.shard
        case Failure(e) => Run(Returned(Wrap(Some(e), "can't read shard", nilIsNil)), positioned)
        case Success(si) =>
          if si.masterAlias.None? then Run(Ok, positioned)
          else if si.masterAlias.value == self then Run(Ok, positioned)
          else match env.masterTablet
            case Failure(e) => Run(Returned(Wrap(Some(e), "Cannot read master tablet", nilIsNil)), positioned)
            case Success(ti) =>
              var fixed := positioned + [FixSemiSync(tabletType)];
              if env.semiSyncErr.Some? then Run(Returned(env.semiSyncErr), fixed)
              else
                var attached := fixed + [SetMaster(ti.mysqlHostname, ti.mysqlPort, false, true)];
                if env.setMasterErr.Some? then
                  Run(Returned(Wrap(env.setMasterErr, "MysqlDaemon.SetMaster failed", nilIsNil)), attached)
                else match env.masterPosition
                  case Failure(_) => Run(Ok, attached)
                  case Success(posStr) =>
                    match deps.decodePosition(posStr)
                    case Failure(e) => Run(Returned(Wrap(Some(e), "can't decode master replication position", nilIsNil)), attached)
                    case Success(masterPos) =>
                      if pos == masterPos then Run(Ok, attached)
                      else Run(WaitForChange(env.statuses, pos, cancelAt, 0, nilIsNil), attached)
  }

  /** Replication is always stopped and reset first; the position is set to
      `pos` next, exactly when the reset succeeded; a failed reset is an error. */
  lemma StartReplicationResetsFirst(deps: Deps, self: TabletAlias, env: ReattachEnv, pos: Position,
                                    tabletType: TabletType, cancelAt: Option<nat>)
    ensures var run := StartReplication(deps, self, env, pos, tabletType, cancelAt);
      && |run.actions| >= 1 && run.actions[0] == Exec(ResetStmts)
      && (env.resetErr.None? <==> |run.actions| >= 2)
      && (|run.actions| >= 2 ==> run.actions[1] == SetReplicationPosition(pos))
      && (env.resetErr.Some? ==> run.outcome.err.Some?)
  {
  }

  /** With no master recorded, or the master being this tablet, the call
      succeeds after reset and position set, and configures no master. */
  lemma StartReplicationWithoutOtherMaster(deps: Deps, self: TabletAlias, env: ReattachEnv, pos: Position,
                                           tabletType: TabletType, cancelAt: Option<nat>)
    requires env.resetErr.None? && env.setPositionErr.None? && env.shard.Success?
    requires env.shard.value.masterAlias.None? || env.shard.value.masterAlias == Some(self)
    ensures StartReplication(deps, self, env, pos, tabletType, cancelAt)
      == Run(Ok, [Exec(ResetStmts), SetReplicationPosition(pos)])
  {
  }

  /** An unreachable master does not fail the call: once the master is
      configured, a failed master-position query returns nil. */
  lemma StartReplicationMasterUnreachable(deps: Deps, self: TabletAlias, env: ReattachEnv, pos: Position,
                                          tabletType: TabletType, cancelAt: Option<nat>)
    requires env.resetErr.None? && env.setPositionErr.None? && env.shard.Success?
    requires env.shard.value.masterAlias.Some? && env.shard.value.masterAlias != Some(self)
    requires env.masterTablet.Success? && env.semiSyncErr.None? && env.setMasterErr.None?
    requires env.masterPosition.Failure?
    ensures var run := StartReplication(deps, self, env, pos, tabletType, cancelAt);
      run.outcome == Ok
      && run.actions == [Exec(ResetStmts), SetReplicationPosition(pos), FixSemiSync(tabletType),
                         SetMaster(env.masterTablet.value.mysqlHostname, env.masterTablet.value.mysqlPort, false, true)]
  {
  }

  /** When the master's position differs from `pos`, a nil result means a
      status read showed a position other than `pos` before the context ended. */
  lemma StartReplicationWaitsForMovement(deps: Deps, self: TabletAlias, env: ReattachEnv, pos: Position,
                                         tabletType: TabletType, cancelAt: Option<nat>)
    requires env.resetErr.None? && env.setPositionErr.None? && env.shard.Success?
    requires env.shard.value.masterAlias.Some? && env.shard.value.masterAlias != Some(self)
    requires env.masterTablet.Success? && env.semiSyncErr.None? && env.setMasterErr.None?
    requires env.masterPosition.Success? && deps.decodePosition(env.masterPosition.value).Success?
    requires deps.decodePosition(env.masterPosition.value).value != pos
    ensures StartReplication(deps, self, env, pos, tabletType, cancelAt).outcome == Ok <==>
      exists k :: 0 <= k < |env.statuses| && env.statuses[k].Success? && env.statuses[k].value != pos
                  && (cancelAt.None? || k < cancelAt.value)
                  && forall j :: 0 <= j < k ==> env.statuses[j] == Success(pos)
  {
    WaitForChangeOkIff(env.statuses, pos, cancelAt, 0, deps.wrapNilIsNil);
  }

  /** Every master the call configures is the one the shard records,
      reached through its tablet record, and never this tablet itself. */
  lemma StartReplicationMasterIsRecorded(deps: Deps, self: TabletAlias, env: ReattachEnv, pos: Position,
                                         tabletType: TabletType, cancelAt: Option<nat>)
    ensures var run := StartReplication(deps, self, env, pos, tabletType, cancelAt);
      forall a :: a in run.actions && a.SetMaster? ==>
        && env.shard.Success? && env.shard.value.masterAlias.Some? && env.shard.value.masterAlias != Some(self)
        && env.masterTablet.Success?
        && a == SetMaster(env.masterTablet.value.mysqlHostname, env.masterTablet.value.mysqlPort, false, true)
  {
    var run := StartReplication(deps, self, env, pos, tabletType, cancelAt);
    var positioned := [Exec(ResetStmts), SetReplicationPosition(pos)];
    if env.resetErr.None? && env.setPositionErr.None? && env.shard.Success? && env.shard.value.masterAlias.Some?
       && env.shard.value.masterAlias.value != self && env.masterTablet.Success?
    {
      var ti := env.masterTablet.value;
      var fixed := positioned + [FixSemiSync(tabletType)];
      assert run.actions == fixed || run.actions == fixed + [SetMaster(ti.mysqlHostname, ti.mysqlPort, false, true)];
    } else {
      assert run.actions == [Exec(ResetStmts)] || run.actions == positioned;
    }
  }
}
