/** Properties of a whole restore run. */
module RestoreProperties {
  import opened Wrappers
  import opened Topodata
  import opened VtErrors
  import opened Mysql
  import opened Collaborators
  import opened Catchup
  import opened Pitr
  import opened Reattach
  import opened Restore

  /** The number of restore attempts among `acts`. */
  function CountRestores(acts: seq<Action>): nat
    decreases |acts|
  {
    if acts == [] then 0 else (if acts[0].RestoreBackup? then 1 else 0) + CountRestores(acts[1..])
  }

  /** The last type the calls persisted, if any. */
  function LastUpdate(acts: seq<Action>): Option<TabletType>
    decreases |acts|
  {
    if acts == [] then None
    else if acts[|acts| - 1].UpdateState? then Some(acts[|acts| - 1].tabletType)
    else LastUpdate(acts[..|acts| - 1])
  }

  /** A call issued by PITR or by the reattachment: it neither persists a
      type nor restores a backup. */
  predicate SideCall(a: Action) {
    !a.UpdateState? && !a.RestoreBackup?
  }

  lemma {:induction false} CountRestoresAppend(a: seq<Action>, b: seq<Action>)
    ensures CountRestores(a + b) == CountRestores(a) + CountRestores(b)
    decreases |a|
  {
    if a == [] {
      assert a + b == b;
    } else {
      assert (a + b)[0] == a[0] && (a + b)[1..] == a[1..] + b;
      CountRestoresAppend(a[1..], b);
    }
  }

  lemma {:induction false} CountRestoresOfSideCalls(acts: seq<Action>)
    requires forall a :: a in acts ==> SideCall(a)
    ensures CountRestores(acts) == 0
    decreases |acts|
  {
    if acts != [] {
      assert acts[0] in acts;
      assert forall a :: a in acts[1..] ==> a in acts;
      CountRestoresOfSideCalls(acts[1..]);
    }
  }

  lemma {:induction false} CountRestoresRepeat(p: RestoreParams, n: nat)
    ensures CountRestores(Repeat(RestoreBackup(p), n)) == n
    decreases n
  {
    if n > 0 {
      var r := Repeat(RestoreBackup(p), n);
      assert r[1..] == Repeat(RestoreBackup(p), n - 1);
      CountRestoresRepeat(p, n - 1);
    }
  }

  lemma {:induction false} LastUpdateAfterSideCalls(a: seq<Action>, b: seq<Action>)
    requires forall x :: x in b ==> SideCall(x)
    ensures LastUpdate(a + b) == LastUpdate(a)
    decreases |b|
  {
    if b == [] {
      assert a + b == a;
    } else {
      var n := |a + b|;
      assert (a + b)[n - 1] == b[|b| - 1] && b[|b| - 1] in b;
      assert (a + b)[..n - 1] == a + b[..|b| - 1];
      assert forall x :: x in b[..|b| - 1] ==> x in b;
      LastUpdateAfterSideCalls(a, b[..|b| - 1]);
    }
  }

  lemma {:induction false} LastUpdateOfSuffix(a: seq<Action>, b: seq<Action>)
    requires LastUpdate(b).Some?
    ensures LastUpdate(a + b) == LastUpdate(b)
    decreases |b|
  {
    var n := |a + b|;
    assert (a + b)[n - 1] == b[|b| - 1];
    if !b[|b| - 1].UpdateState? {
      assert (a + b)[..n - 1] == a + b[..|b| - 1];
      LastUpdateOfSuffix(a, b[..|b| - 1]);
    }
  }

  lemma {:induction false} LastUpdateOfRepeat(p: RestoreParams, n: nat)
    ensures LastUpdate([UpdateState(RESTORE)] + Repeat(RestoreBackup(p), n)) == Some(RESTORE)
  {
    LastUpdateAfterRestores([UpdateState(RESTORE)], p, n);
    assert LastUpdate([UpdateState(RESTORE)]) == Some(RESTORE);
  }

  /** Restore calls persist no type. */
  lemma {:induction false} LastUpdateAfterRestores(pre: seq<Action>, p: RestoreParams, n: nat)
    ensures LastUpdate(pre + Repeat(RestoreBackup(p), n)) == LastUpdate(pre)
    decreases n
  {
    if n > 0 {
      var acts := pre + Repeat(RestoreBackup(p), n);
      assert acts[..|acts| - 1] == pre + Repeat(RestoreBackup(p), n - 1);
      LastUpdateAfterRestores(pre, p, n - 1);
    } else {
      assert pre + Repeat(RestoreBackup(p), n) == pre;
    }
  }

  /** The catch-up driver only sends command lists. */
  lemma CatchupCalls(cfg: Config, deps: Deps, env: CatchupEnv, gtid: string, stopPosGtid: string)
    ensures forall a :: a in CatchupToGtid(cfg, deps, env, gtid, stopPosGtid).actions ==> a.Exec?
  {
  }

  /** PITR only streams and sends catch-up command lists. */
  lemma PitrCalls(cfg: Config, deps: Deps, env: PitrEnv, pos: Position, time: VtTime)
    ensures forall a :: a in RestoreToTime(cfg, deps, env, pos, time).actions ==> a.StreamFrom? || a.Exec?
  {
  }

  /** Reattachment only talks to MySQL replication. */
  lemma ReattachCalls(deps: Deps, self: TabletAlias, env: ReattachEnv, pos: Position, t: TabletType, cancelAt: Option<nat>)
    ensures forall a :: a in StartReplication(deps, self, env, pos, t, cancelAt).actions ==> TouchesReplication(a)
  {
  }

  /** PITR's calls only stream events or execute statements. */
  /** Neither the catch-up driver, PITR nor the reattachment persists a type. */
  lemma CatchupKeepsLastUpdate(pre: seq<Action>, cfg: Config, deps: Deps, env: CatchupEnv, gtid: string, stopPosGtid: string)
    ensures LastUpdate(pre + CatchupToGtid(cfg, deps, env, gtid, stopPosGtid).actions) == LastUpdate(pre)
  {
    CatchupCalls(cfg, deps, env, gtid, stopPosGtid);
    LastUpdateAfterSideCalls(pre, CatchupToGtid(cfg, deps, env, gtid, stopPosGtid).actions);
  }

  lemma PitrKeepsLastUpdate(pre: seq<Action>, cfg: Config, deps: Deps, env: PitrEnv, pos: Position, time: VtTime)
    ensures LastUpdate(pre + RestoreToTime(cfg, deps, env, pos, time).actions) == LastUpdate(pre)
  {
    PitrCalls(cfg, deps, env, pos, time);
    LastUpdateAfterSideCalls(pre, RestoreToTime(cfg, deps, env, pos, time).actions);
  }

  lemma ReattachKeepsLastUpdate(pre: seq<Action>, deps: Deps, self: TabletAlias, env: ReattachEnv, pos: Position,
                                t: TabletType, cancelAt: Option<nat>)
    ensures LastUpdate(pre + StartReplication(deps, self, env, pos, t, cancelAt).actions) == LastUpdate(pre)
  {
    ReattachCalls(deps, self, env, pos, t, cancelAt);
    LastUpdateAfterSideCalls(pre, StartReplication(deps, self, env, pos, t, cancelAt).actions);
  }

  predicate StreamsOrExecutes(run: Run) {
    forall a :: a in run.actions ==> a.StreamFrom? || a.Exec?
  }

  /** Reattachment's calls only touch replication. */
  predicate OnlyReplication(run: Run) {
    forall a :: a in run.actions ==> TouchesReplication(a)
  }

  lemma PitrRunCalls(cfg: Config, deps: Deps, env: RestoreEnv, info: KeyspaceInfo, pos: Position)
    ensures StreamsOrExecutes(PitrRun(cfg, deps, env, info, pos))
  {
    if info.snapshotTime.Some? {
      PitrCalls(cfg, deps, env.pitr, pos, info.snapshotTime.value);
    }
  }

  /** The restore parameters of a run whose keyspace lookups succeed. */
  function ParamsOf(cfg: Config, deps: Deps, tablet: TabletRecord, original: TabletType, env: RestoreEnv, del: bool): RestoreParams
    requires env.keyspace.Success? && RestoreKeyspace(tablet.keyspace, env.keyspace.value).Success?
  {
    RestoreParamsFor(cfg, deps, tablet, original, RestoreKeyspace(tablet.keyspace, env.keyspace.value).value,
                     env.keyspace.value, del)
  }

  lemma {:induction false} CountRestoresAfterSideCalls(a: seq<Action>, b: seq<Action>)
    requires forall x :: x in b ==> SideCall(x)
    ensures CountRestores(a + b) == CountRestores(a)
  {
    CountRestoresAppend(a, b);
    CountRestoresOfSideCalls(b);
  }

  /** The calls before PITR are the type flip and restore attempts. */
  lemma AttemptsCalls(params: RestoreParams, n: nat)
    ensures var acts := Attempts(params, n);
      && acts[0] == UpdateState(RESTORE)
      && LastUpdate(acts) == Some(RESTORE)
      && CountRestores(acts) == n
      && forall a :: a in acts ==> a == UpdateState(RESTORE) || a == RestoreBackup(params)
  {
    LastUpdateOfRepeat(params, n);
    CountRestoresRepeat(params, n);
    assert CountRestores([UpdateState(RESTORE)]) == 0;
    CountRestoresAppend([UpdateState(RESTORE)], Repeat(RestoreBackup(params), n));
  }

  /** A run whose retry loop ended with a result goes on to PITR and the
      switch, with the calls of the loop in front. */
  lemma AttemptedRestored(cfg: Config, deps: Deps, tablet: TabletRecord, original: TabletType, env: RestoreEnv,
                          info: KeyspaceInfo, params: RestoreParams, interval: int)
    requires RetryLoop(env.attempts, interval, 0).Restored?
    ensures var b := RetryLoop(env.attempts, interval, 0);
      var pos := PositionOf(b.result);
      Attempted(cfg, deps, tablet, original, env, info, params, interval)
      == AfterBackup(cfg, deps, original, info, b.result.err, Attempts(params, b.calls), PitrRun(cfg, deps, env, info, pos),
                     StartReplication(deps, tablet.alias, env.reattach, pos, original, None))
  {
  }

  /** A run whose keyspace lookups succeed is the retry stage. */
  lemma LockedAttempts(cfg: Config, deps: Deps, tablet: TabletRecord, original: TabletType,
                       env: RestoreEnv, interval: int, del: bool)
    requires env.keyspace.Success? && RestoreKeyspace(tablet.keyspace, env.keyspace.value).Success?
    ensures RestoreDataLocked(cfg, deps, tablet, original, env, interval, del)
            == Attempted(cfg, deps, tablet, original, env, env.keyspace.value, ParamsOf(cfg, deps, tablet, original, env, del), interval)
  {
  }

  /** The switch and the final type step add no restore attempt, keep the
      calls before them, end with the type they persisted last, and for a
      SNAPSHOT keyspace only persist a type. */
  lemma SettleSteps(cfg: Config, deps: Deps, original: TabletType, keyspaceType: KeyspaceType, err: Option<Err>,
                    acts: seq<Action>, reattach: Run)
    requires OnlyReplication(reattach)
    ensures var r := Settle(cfg, deps, original, keyspaceType, err, acts, reattach);
      && |acts| <= |r.actions| && r.actions[..|acts|] == acts
      && CountRestores(r.actions) == CountRestores(acts)
      && (LastUpdate(acts) == Some(RESTORE) ==> LastUpdate(r.actions) == Some(r.tabletType))
      && (keyspaceType == SNAPSHOT ==> r.actions == acts + [UpdateState(r.tabletType)])
      && (forall a :: a in r.actions && a.RestoreBackup? ==> a in acts)
  {
    var r := Settle(cfg, deps, original, keyspaceType, err, acts, reattach);
    var s := reattach.actions;
    assert forall x :: x in s ==> SideCall(x);
    var last := [UpdateState(r.tabletType)];
    assert CountRestores(last) == 0;
    assert LastUpdate(acts + last) == Some(r.tabletType) by {
      assert (acts + last)[|acts + last| - 1] == UpdateState(r.tabletType);
    }
    match Classify(err, keyspaceType)
    case Fail =>
      CountRestoresAppend(acts, last);
    case Proceed =>
      CountRestoresAppend(acts, last);
    case Reattach =>
      CountRestoresAfterSideCalls(acts, s);
      LastUpdateAfterSideCalls(acts, s);
      if reattach.outcome == Ok {
        CountRestoresAppend(acts + s, last);
        assert LastUpdate(acts + s + last) == Some(r.tabletType) by {
          assert (acts + s + last)[|acts + s + last| - 1] == UpdateState(r.tabletType);
        }
        assert (acts + s + last)[..|acts|] == acts;
      } else {
        assert (acts + s)[..|acts|] == acts;
      }
  }

  /** The same for the PITR step in front of the switch. */
  lemma AfterBackupSteps(cfg: Config, deps: Deps, original: TabletType, info: KeyspaceInfo, err: Option<Err>,
                         acts: seq<Action>, pitr: Run, reattach: Run)
    requires StreamsOrExecutes(pitr) && OnlyReplication(reattach)
    ensures var r := AfterBackup(cfg, deps, original, info, err, acts, pitr, reattach);
      && |acts| <= |r.actions| && r.actions[..|acts|] == acts
      && CountRestores(r.actions) == CountRestores(acts)
      && (LastUpdate(acts) == Some(RESTORE) ==> LastUpdate(r.actions) == Some(r.tabletType))
      && (info.keyspaceType == SNAPSHOT ==> forall a :: a in r.actions ==> a in acts || a.StreamFrom? || a.Exec? || a.UpdateState?)
      && (forall a :: a in r.actions && a.RestoreBackup? ==> a in acts)
  {
    if info.snapshotTime.Some? {
      var p := pitr.actions;
      assert forall x :: x in p ==> SideCall(x);
      CountRestoresAfterSideCalls(acts, p);
      LastUpdateAfterSideCalls(acts, p);
      assert (acts + p)[..|acts|] == acts;
      SettleSteps(cfg, deps, original, info.keyspaceType, None, acts + p, reattach);
      var r := AfterBackup(cfg, deps, original, info, err, acts, pitr, reattach);
      if pitr.outcome == Ok {
        assert r == Settle(cfg, deps, original, info.keyspaceType, None, acts + p, reattach);
        assert r.actions[..|acts|] == (r.actions[..|acts + p|])[..|acts|];
      }
    } else {
      SettleSteps(cfg, deps, original, info.keyspaceType, err, acts, reattach);
    }
  }

  /** The Restored case of the retry stage, by the stage lemmas. */
  lemma RestoredSteps(cfg: Config, deps: Deps, tablet: TabletRecord, original: TabletType, env: RestoreEnv,
                      info: KeyspaceInfo, params: RestoreParams, interval: int)
    requires RetryLoop(env.attempts, interval, 0).Restored?
    ensures var b := RetryLoop(env.attempts, interval, 0);
      var r := Attempted(cfg, deps, tablet, original, env, info, params, interval);
      && |Attempts(params, b.calls)| <= |r.actions| && r.actions[..|Attempts(params, b.calls)|] == Attempts(params, b.calls)
      && CountRestores(r.actions) == b.calls
      && LastUpdate(r.actions) == Some(r.tabletType)
      && (info.keyspaceType == SNAPSHOT ==> forall a :: a in r.actions ==>
            a == RestoreBackup(params) || a.StreamFrom? || a.Exec? || a.UpdateState?)
      && (forall a :: a in r.actions && a.RestoreBackup? ==> a == RestoreBackup(params))
  {
    var b := RetryLoop(env.attempts, interval, 0);
    var pos := PositionOf(b.result);
    AttemptedRestored(cfg, deps, tablet, original, env, info, params, interval);
    AttemptsCalls(params, b.calls);
    PitrRunCalls(cfg, deps, env, info, pos);
    ReattachCalls(deps, tablet.alias, env.reattach, pos, original, None);
    AfterBackupSteps(cfg, deps, original, info, b.result.err, Attempts(params, b.calls), PitrRun(cfg, deps, env, info, pos),
                     StartReplication(deps, tablet.alias, env.reattach, pos, original, None));
  }

  /** All of the retry stage, by its cases. */
  lemma AttemptedSteps(cfg: Config, deps: Deps, tablet: TabletRecord, original: TabletType, env: RestoreEnv,
                       info: KeyspaceInfo, params: RestoreParams, interval: int)
    ensures var r := Attempted(cfg, deps, tablet, original, env, info, params, interval);
      && |r.actions| > 0 && r.actions[0] == UpdateState(RESTORE)
      && LastUpdate(r.actions) == Some(r.tabletType)
      && CountRestores(r.actions) == CallsMade(RetryLoop(env.attempts, interval, 0), |env.attempts|)
      && (info.keyspaceType == SNAPSHOT ==> forall a :: a in r.actions ==>
            a == RestoreBackup(params) || a.StreamFrom? || a.Exec? || a.UpdateState?)
      && (forall a :: a in r.actions && a.RestoreBackup? ==> a == RestoreBackup(params))
  {
    match RetryLoop(env.attempts, interval, 0)
    case RetryUnfinished => AttemptsCalls(params, |env.attempts|);
    case RetryCancelled(n) => AttemptsCalls(params, n);
    case Restored(b, n) =>
      RestoredSteps(cfg, deps, tablet, original, env, info, params, interval);
      AttemptsCalls(params, n);
      var r := Attempted(cfg, deps, tablet, original, env, info, params, interval);
      assert r.actions[0] == r.actions[..|Attempts(params, n)|][0];
  }

  /** The restore flips the type to RESTORE before anything else, and the
      type it ends with is always the last one it persisted. */
  lemma RestorePublishesItsType(cfg: Config, deps: Deps, tablet: TabletRecord, original: TabletType,
                                env: RestoreEnv, interval: int, del: bool)
    ensures var r := RestoreDataLocked(cfg, deps, tablet, original, env, interval, del);
      |r.actions| > 0 && r.actions[0] == UpdateState(RESTORE) && LastUpdate(r.actions) == Some(r.tabletType)
  {
    assert LastUpdate([UpdateState(RESTORE)]) == Some(RESTORE) by {
      assert [UpdateState(RESTORE)][..0] == [];
    }
    if env.keyspace.Success? && RestoreKeyspace(tablet.keyspace, env.keyspace.value).Success? {
      LockedAttempts(cfg, deps, tablet, original, env, interval, del);
      AttemptedSteps(cfg, deps, tablet, original, env, env.keyspace.value, ParamsOf(cfg, deps, tablet, original, env, del), interval);
    }
  }

  /** A failed keyspace lookup, or a SNAPSHOT keyspace without a base
      keyspace (INVALID_ARGUMENT), ends the restore before any restore
      attempt, with the type left at RESTORE. */
  lemma RestoreStopsBeforeAnyAttempt(cfg: Config, deps: Deps, tablet: TabletRecord, original: TabletType,
                                     env: RestoreEnv, interval: int, del: bool)
    requires env.keyspace.Failure? || (env.keyspace.value.keyspaceType == SNAPSHOT && env.keyspace.value.baseKeyspace == "")
    ensures RestoreDataLocked(cfg, deps, tablet, original, env, interval, del) ==
      Restoration(Returned(Some(if env.keyspace.Failure? then env.keyspace.error
                                else Coded(INVALID_ARGUMENT, NoBaseKeyspaceMsg(tablet.keyspace)))),
                  [UpdateState(RESTORE)], RESTORE)
  {
  }

  /** Every restore attempt asks for the restore keyspace (the base keyspace
      of a SNAPSHOT keyspace, the tablet's own otherwise), with the local
      metadata of the original type and the keyspace's snapshot time; and the
      number of attempts is the number of calls the retry loop made. */
  lemma RestoreAttempts(cfg: Config, deps: Deps, tablet: TabletRecord, original: TabletType,
                        env: RestoreEnv, interval: int, del: bool)
    requires env.keyspace.Success? && RestoreKeyspace(tablet.keyspace, env.keyspace.value).Success?
    ensures var r := RestoreDataLocked(cfg, deps, tablet, original, env, interval, del);
      var info := env.keyspace.value;
      && (forall a :: a in r.actions && a.RestoreBackup? ==>
            && a.params.keyspace == (if info.keyspaceType == SNAPSHOT then info.baseKeyspace else tablet.keyspace)
            && a.params.localMetadata == LocalMetadataValues(deps, tablet, original)
            && a.params.startTime == info.snapshotTime
            && a.params.shard == tablet.shard)
      && CountRestores(r.actions) == CallsMade(RetryLoop(env.attempts, interval, 0), |env.attempts|)
  {
    LockedAttempts(cfg, deps, tablet, original, env, interval, del);
    AttemptedSteps(cfg, deps, tablet, original, env, env.keyspace.value, ParamsOf(cfg, deps, tablet, original, env, del), interval);
  }

  /** With a zero wait interval the backup restore is attempted exactly once. */
  lemma RestoreOnceWithoutInterval(cfg: Config, deps: Deps, tablet: TabletRecord, original: TabletType,
                                   env: RestoreEnv, del: bool)
    requires env.keyspace.Success? && RestoreKeyspace(tablet.keyspace, env.keyspace.value).Success?
    requires |env.attempts| > 0
    ensures CountRestores(RestoreDataLocked(cfg, deps, tablet, original, env, 0, del).actions) == 1
  {
    RestoreAttempts(cfg, deps, tablet, original, env, 0, del);
  }

  /** The context ending during a wait returns its error, leaving the type
      at RESTORE. */
  lemma RestoreCancelledWhileWaiting(cfg: Config, deps: Deps, tablet: TabletRecord, original: TabletType,
                                     env: RestoreEnv, interval: int, del: bool)
    requires env.keyspace.Success? && RestoreKeyspace(tablet.keyspace, env.keyspace.value).Success?
    requires RetryLoop(env.attempts, interval, 0).RetryCancelled?
    ensures var r := RestoreDataLocked(cfg, deps, tablet, original, env, interval, del);
      r.outcome == Returned(Some(ContextDone)) && r.tabletType == RESTORE
      && forall a :: a in r.actions ==> !TouchesReplication(a)
  {
    LockedAttempts(cfg, deps, tablet, original, env, interval, del);
    AttemptsCalls(ParamsOf(cfg, deps, tablet, original, env, del), RetryLoop(env.attempts, interval, 0).calls);
  }

  /** Without a snapshot time: no backup, or an existing database, changes no
      replication state and the tablet takes its final type. */
  lemma RestoreBenignBackupErrors(cfg: Config, deps: Deps, tablet: TabletRecord, original: TabletType,
                                  env: RestoreEnv, interval: int, del: bool)
    requires env.keyspace.Success? && RestoreKeyspace(tablet.keyspace, env.keyspace.value).Success?
    requires env.keyspace.value.snapshotTime.None?
    requires RetryLoop(env.attempts, interval, 0).Restored?
    requires RetryLoop(env.attempts, interval, 0).result.err in {Some(NoBackup), Some(ExistingDB)}
    ensures var r := RestoreDataLocked(cfg, deps, tablet, original, env, interval, del);
      var t := FinalType(original, cfg.initTabletType, deps.parseTabletType);
      var n := RetryLoop(env.attempts, interval, 0).calls;
      r == Restoration(Ok, Attempts(ParamsOf(cfg, deps, tablet, original, env, del), n) + [UpdateState(t)], t)
  {
    LockedAttempts(cfg, deps, tablet, original, env, interval, del);
    AttemptedRestored(cfg, deps, tablet, original, env, env.keyspace.value, ParamsOf(cfg, deps, tablet, original, env, del), interval);
  }

  /** Without a snapshot time: any other backup error -- among them no
      complete backup when the interval is zero -- reverts the type to the
      original one and returns the error wrapped. */
  lemma RestoreFatalBackupError(cfg: Config, deps: Deps, tablet: TabletRecord, original: TabletType,
                                env: RestoreEnv, interval: int, del: bool)
    requires env.keyspace.Success? && RestoreKeyspace(tablet.keyspace, env.keyspace.value).Success?
    requires env.keyspace.value.snapshotTime.None?
    requires RetryLoop(env.attempts, interval, 0).Restored?
    requires var err := RetryLoop(env.attempts, interval, 0).result.err;
      err.Some? && err.value != NoBackup && err.value != ExistingDB
    ensures var r := RestoreDataLocked(cfg, deps, tablet, original, env, interval, del);
      var e := RetryLoop(env.attempts, interval, 0).result.err.value;
      && r.outcome == Returned(Some(Wrapped(e, FailedRestoreMsg)))
      && r.tabletType == original
      && r.actions[|r.actions| - 1] == UpdateState(original)
      && forall a :: a in r.actions ==> !TouchesReplication(a)
  {
    var params := ParamsOf(cfg, deps, tablet, original, env, del);
    LockedAttempts(cfg, deps, tablet, original, env, interval, del);
    AttemptedRestored(cfg, deps, tablet, original, env, env.keyspace.value, params, interval);
    AttemptsCalls(params, RetryLoop(env.attempts, interval, 0).calls);
  }

  /** With a zero interval, no complete backup is fatal. */
  lemma RestoreNoCompleteBackupWithoutInterval(cfg: Config, deps: Deps, tablet: TabletRecord, original: TabletType,
                                               env: RestoreEnv, del: bool)
    requires env.keyspace.Success? && RestoreKeyspace(tablet.keyspace, env.keyspace.value).Success?
    requires env.keyspace.value.snapshotTime.None?
    requires |env.attempts| > 0 && env.attempts[0].result.err == Some(NoCompleteBackup)
    ensures var r := RestoreDataLocked(cfg, deps, tablet, original, env, 0, del);
      r.outcome == Returned(Some(Wrapped(NoCompleteBackup, FailedRestoreMsg))) && r.tabletType == original
  {
    RetryLoopOnceWithoutInterval(env.attempts);
    RestoreFatalBackupError(cfg, deps, tablet, original, env, 0, del);
  }

  /** Without a snapshot time: a successful backup of a NORMAL keyspace is
      followed by reattachment at the manifest's position (the zero position
      without a manifest), for the original type; the final type is set only
      if reattachment returned nil, and its error is returned as is. */
  lemma RestoreReattachesAfterBackup(cfg: Config, deps: Deps, tablet: TabletRecord, original: TabletType,
                                     env: RestoreEnv, interval: int, del: bool)
    requires env.keyspace.Success? && env.keyspace.value.keyspaceType == NORMAL
    requires env.keyspace.value.snapshotTime.None?
    requires RetryLoop(env.attempts, interval, 0).Restored? && RetryLoop(env.attempts, interval, 0).result.err.None?
    ensures var r := RestoreDataLocked(cfg, deps, tablet, original, env, interval, del);
      var b := RetryLoop(env.attempts, interval, 0);
      var s := StartReplication(deps, tablet.alias, env.reattach, PositionOf(b.result), original, None);
      var pre := Attempts(ParamsOf(cfg, deps, tablet, original, env, del), b.calls);
      var t := FinalType(original, cfg.initTabletType, deps.parseTabletType);
      r == if s.outcome == Ok then Restoration(Ok, pre + s.actions + [UpdateState(t)], t)
           else Restoration(s.outcome, pre + s.actions, RESTORE)
  {
    LockedAttempts(cfg, deps, tablet, original, env, interval, del);
    AttemptedRestored(cfg, deps, tablet, original, env, env.keyspace.value, ParamsOf(cfg, deps, tablet, original, env, del), interval);
  }

  /** A SNAPSHOT keyspace never reattaches to a master. */
  lemma RestoreSnapshotNeverReattaches(cfg: Config, deps: Deps, tablet: TabletRecord, original: TabletType,
                                       env: RestoreEnv, interval: int, del: bool)
    requires env.keyspace.Success? && env.keyspace.value.keyspaceType == SNAPSHOT
    ensures forall a :: a in RestoreDataLocked(cfg, deps, tablet, original, env, interval, del).actions ==>
      !a.SetReplicationPosition? && !a.SetMaster? && !a.FixSemiSync?
  {
    if RestoreKeyspace(tablet.keyspace, env.keyspace.value).Success? {
      LockedAttempts(cfg, deps, tablet, original, env, interval, del);
      AttemptedSteps(cfg, deps, tablet, original, env, env.keyspace.value, ParamsOf(cfg, deps, tablet, original, env, del), interval);
    }
  }

  /** Any PITR error ends the restore with nil, the type left at RESTORE,
      and no reattachment. */
  lemma RestorePitrErrorIsSoft(cfg: Config, deps: Deps, tablet: TabletRecord, original: TabletType,
                               env: RestoreEnv, interval: int, del: bool)
    requires env.keyspace.Success? && RestoreKeyspace(tablet.keyspace, env.keyspace.value).Success?
    requires env.keyspace.value.snapshotTime.Some? && RetryLoop(env.attempts, interval, 0).Restored?
    requires var p := RestoreToTime(cfg, deps, env.pitr, PositionOf(RetryLoop(env.attempts, interval, 0).result),
                                    env.keyspace.value.snapshotTime.value);
      p.outcome.Returned? && p.outcome.err.Some?
    ensures var r := RestoreDataLocked(cfg, deps, tablet, original, env, interval, del);
      r.outcome == Ok && r.tabletType == RESTORE
      && forall a :: a in r.actions ==> !a.SetReplicationPosition? && !a.SetMaster? && !a.FixSemiSync?
  {
    var params := ParamsOf(cfg, deps, tablet, original, env, del);
    var b := RetryLoop(env.attempts, interval, 0);
    LockedAttempts(cfg, deps, tablet, original, env, interval, del);
    AttemptedRestored(cfg, deps, tablet, original, env, env.keyspace.value, params, interval);
    AttemptsCalls(params, b.calls);
    var p := PitrRun(cfg, deps, env, env.keyspace.value, PositionOf(b.result));
    PitrRunCalls(cfg, deps, env, env.keyspace.value, PositionOf(b.result));
    assert RestoreDataLocked(cfg, deps, tablet, original, env, interval, del)
        == Restoration(Ok, Attempts(params, b.calls) + p.actions, RESTORE);
  }

  /** The overwritten error: when PITR runs and returns nil -- for instance
      because no binlog server is configured -- a fatal backup error is never
      reported; a NORMAL keyspace even goes on to reattach. */
  lemma RestorePitrMasksBackupError(cfg: Config, deps: Deps, tablet: TabletRecord, original: TabletType,
                                    env: RestoreEnv, interval: int, del: bool)
    requires env.keyspace.Success? && RestoreKeyspace(tablet.keyspace, env.keyspace.value).Success?
    requires env.keyspace.value.snapshotTime.Some? && RetryLoop(env.attempts, interval, 0).Restored?
    requires !BinlogConfigured(cfg)
    ensures var r := RestoreDataLocked(cfg, deps, tablet, original, env, interval, del);
      var b := RetryLoop(env.attempts, interval, 0);
      var s := StartReplication(deps, tablet.alias, env.reattach, PositionOf(b.result), original, None);
      && (r.outcome.Returned? && r.outcome.err.Some? ==> env.keyspace.value.keyspaceType == NORMAL && r.outcome == s.outcome)
      && (env.keyspace.value.keyspaceType == SNAPSHOT ==> r.outcome == Ok)
      && (env.keyspace.value.keyspaceType == NORMAL ==>
            r.actions[..|r.actions| - (if s.outcome == Ok then 1 else 0)] ==
            Attempts(ParamsOf(cfg, deps, tablet, original, env, del), b.calls) + s.actions)
  {
    var params := ParamsOf(cfg, deps, tablet, original, env, del);
    LockedAttempts(cfg, deps, tablet, original, env, interval, del);
    AttemptedRestored(cfg, deps, tablet, original, env, env.keyspace.value, params, interval);
    var b := RetryLoop(env.attempts, interval, 0);
    assert PitrRun(cfg, deps, env, env.keyspace.value, PositionOf(b.result)) == Run(Ok, []);
    assert Attempts(params, b.calls) + [] == Attempts(params, b.calls);
  }

  /** A nil end of the switch sets the final type, and persists it last. */
  lemma SettleOk(cfg: Config, deps: Deps, original: TabletType, keyspaceType: KeyspaceType, err: Option<Err>,
                 acts: seq<Action>, reattach: Run)
    requires Settle(cfg, deps, original, keyspaceType, err, acts, reattach).outcome == Ok
    ensures var r := Settle(cfg, deps, original, keyspaceType, err, acts, reattach);
      && r.tabletType == FinalType(original, cfg.initTabletType, deps.parseTabletType)
      && r.actions[|r.actions| - 1] == UpdateState(r.tabletType)
  {
  }

  /** After a nil result without PITR, the tablet's type is the final type;
      for an original type other than BACKUP or RESTORE, that is the
      original type. */
  lemma RestoreSuccessFinalType(cfg: Config, deps: Deps, tablet: TabletRecord, original: TabletType,
                                env: RestoreEnv, interval: int, del: bool)
    requires env.keyspace.Success? && env.keyspace.value.snapshotTime.None?
    requires RestoreDataLocked(cfg, deps, tablet, original, env, interval, del).outcome == Ok
    ensures var r := RestoreDataLocked(cfg, deps, tablet, original, env, interval, del);
      && r.tabletType == FinalType(original, cfg.initTabletType, deps.parseTabletType)
      && (original != BACKUP && original != RESTORE ==> r.tabletType == original)
      && |r.actions| > 0 && r.actions[|r.actions| - 1] == UpdateState(r.tabletType)
  {
    var info := env.keyspace.value;
    if RestoreKeyspace(tablet.keyspace, info).Success? {
      var params := ParamsOf(cfg, deps, tablet, original, env, del);
      LockedAttempts(cfg, deps, tablet, original, env, interval, del);
      var b := RetryLoop(env.attempts, interval, 0);
      if b.Restored? {
        var pos := PositionOf(b.result);
        var s := StartReplication(deps, tablet.alias, env.reattach, pos, original, None);
        AttemptedRestored(cfg, deps, tablet, original, env, info, params, interval);
        assert Attempted(cfg, deps, tablet, original, env, info, params, interval)
            == Settle(cfg, deps, original, info.keyspaceType, b.result.err, Attempts(params, b.calls), s);
        SettleOk(cfg, deps, original, info.keyspaceType, b.result.err, Attempts(params, b.calls), s);
      }
    }
  }

  /** PITR ran, after a restored backup, and returned an error. */
  predicate PitrFailed(cfg: Config, deps: Deps, env: RestoreEnv, interval: int) {
    && env.keyspace.Success? && env.keyspace.value.snapshotTime.Some?
    && RetryLoop(env.attempts, interval, 0).Restored?
    && var o := RestoreToTime(cfg, deps, env.pitr, PositionOf(RetryLoop(env.attempts, interval, 0).result),
                              env.keyspace.value.snapshotTime.value).outcome;
       o.Returned? && o.err.Some?
  }

  /** Every nil restore, with or without a snapshot time: after a PITR error
      the type stays RESTORE; otherwise it is the final type, persisted last. */
  lemma RestoreNilFinalType(cfg: Config, deps: Deps, tablet: TabletRecord, original: TabletType,
                            env: RestoreEnv, interval: int, del: bool)
    requires RestoreDataLocked(cfg, deps, tablet, original, env, interval, del).outcome == Ok
    ensures var r := RestoreDataLocked(cfg, deps, tablet, original, env, interval, del);
      if PitrFailed(cfg, deps, env, interval) then r.tabletType == RESTORE
      else && r.tabletType == FinalType(original, cfg.initTabletType, deps.parseTabletType)
           && |r.actions| > 0 && r.actions[|r.actions| - 1] == UpdateState(r.tabletType)
  {
    var info := env.keyspace.value;
    var params := ParamsOf(cfg, deps, tablet, original, env, del);
    LockedAttempts(cfg, deps, tablet, original, env, interval, del);
    var b := RetryLoop(env.attempts, interval, 0);
    AttemptedRestored(cfg, deps, tablet, original, env, info, params, interval);
    var pos := PositionOf(b.result);
    var s := StartReplication(deps, tablet.alias, env.reattach, pos, original, None);
    var p := PitrRun(cfg, deps, env, info, pos);
    if info.snapshotTime.None? {
      assert Attempted(cfg, deps, tablet, original, env, info, params, interval)
          == Settle(cfg, deps, original, info.keyspaceType, b.result.err, Attempts(params, b.calls), s);
      SettleOk(cfg, deps, original, info.keyspaceType, b.result.err, Attempts(params, b.calls), s);
    } else if p.outcome == Ok {
      assert Attempted(cfg, deps, tablet, original, env, info, params, interval)
          == Settle(cfg, deps, original, info.keyspaceType, None, Attempts(params, b.calls) + p.actions, s);
      SettleOk(cfg, deps, original, info.keyspaceType, None, Attempts(params, b.calls) + p.actions, s);
    }
  }

  /** A failed lock or a missing engine configuration returns before any
      call, leaving the type as it was. */
  lemma RestoreDataGuards(cfg: Config, deps: Deps, tablet: TabletRecord, current: TabletType, lockErr: Option<Err>,
                          hasCnf: bool, env: RestoreEnv, interval: int, del: bool)
    requires lockErr.Some? || !hasCnf
    ensures var r := RestoreData(cfg, deps, tablet, current, lockErr, hasCnf, env, interval, del);
      r.actions == [] && r.tabletType == current
      && r.outcome == Returned(Some(if lockErr.Some? then lockErr.value else NoCnf))
  {
  }
}
