/** Point-in-time recovery: resolve the restore time to a GTID through the
    binlog server's event stream, then catch up to it. */
module Pitr {
  import opened Wrappers
  import opened Topodata
  import opened VtErrors
  import opened Mysql
  import opened Collaborators
  import opened GtidResolver
  import opened Catchup

  /** The stream's batches delivered before the resolver answered, how the
      stream ended, and the catch-up driver's answers. */
  datatype PitrEnv = PitrEnv(batches: seq<seq<Event>>, ending: StreamEnd, catchup: CatchupEnv)

  /** The binlog server settings PITR needs are all present. */
  predicate BinlogConfigured(cfg: Config) {
    cfg.binlogHost != "" && cfg.binlogPort > 0 && cfg.binlogUser != ""
  }

  const NoGtidMsg := "unable to fetch the GTID for the specified restore_to_time"

  /** restoreToTimeFromBinlog from position `pos` to `restoreTime` (whose
      nanoseconds the resolver ignores). */
  function RestoreToTime(cfg: Config, deps: Deps, env: PitrEnv, pos: Position, restoreTime: VtTime): Run {
    if !BinlogConfigured(cfg) then Run(Ok, [])
    else
      var streamed := [StreamFrom(pos)];
      match Resolve(Flatten(env.batches), env.ending, restoreTime.seconds)
      case IndexPanic => Run(Panicked, streamed)
      case Resolved(gtid, stopPos) =>
        if gtid == "" then Run(Returned(Some(Coded(FAILED_PRECONDITION, NoGtidMsg))), streamed)
        else
          var c := CatchupToGtid(cfg, deps, env.catchup, gtid, stopPos);
          var outcome := match c.outcome
            case Returned(Some(e)) =>
              Returned(Wrap(Some(e), "unable to replicate upto specified gtid : " + gtid, deps.wrapNilIsNil))
            case other => other;
          Run(outcome, streamed + c.actions)
  }

  /** Without a binlog host, a positive port and a user, PITR does nothing
      and succeeds. */
  lemma RestoreToTimeSkipped(cfg: Config, deps: Deps, env: PitrEnv, pos: Position, restoreTime: VtTime)
    requires cfg.binlogHost == "" || cfg.binlogPort <= 0 || cfg.binlogUser == ""
    ensures RestoreToTime(cfg, deps, env, pos, restoreTime) == Run(Ok, [])
  {
  }

  /** With the settings present, PITR streams from the restored position
      first, and never ends unfinished. */
  lemma RestoreToTimeStreamsFromPos(cfg: Config, deps: Deps, env: PitrEnv, pos: Position, restoreTime: VtTime)
    requires BinlogConfigured(cfg)
    ensures var run := RestoreToTime(cfg, deps, env, pos, restoreTime);
      |run.actions| >= 1 && run.actions[0] == StreamFrom(pos) && !run.outcome.Unfinished?
  {
  }

  /** No event with a GTID after the restore time: a stream that closed or
      whose context ended gives FAILED_PRECONDITION, a stream error gives the
      index panic; no replication command is issued either way. */
  lemma RestoreToTimeNoQualifyingEvent(cfg: Config, deps: Deps, env: PitrEnv, pos: Position, restoreTime: VtTime)
    requires BinlogConfigured(cfg)
    requires forall j :: 0 <= j < |Flatten(env.batches)| ==> !Qualifies(Flatten(env.batches)[j], restoreTime.seconds)
    ensures var run := RestoreToTime(cfg, deps, env, pos, restoreTime);
      && run.actions == [StreamFrom(pos)]
      && run.outcome == (if env.ending == StreamFailed then Panicked
                         else Returned(Some(Coded(FAILED_PRECONDITION, NoGtidMsg))))
  {
    var events := Flatten(env.batches);
    ScanPendingWithoutQualifying(events, restoreTime.seconds, "");
  }

  /** With a qualifying event at index `k` (the first), the catch-up driver
      runs to that event's GTID, bounded by the last GTID seen before it. */
  lemma RestoreToTimeCatchesUpToFirstQualifying(cfg: Config, deps: Deps, env: PitrEnv, pos: Position,
                                                restoreTime: VtTime, k: nat)
    requires BinlogConfigured(cfg)
    requires var events := Flatten(env.batches);
      k < |events| && Qualifies(events[k], restoreTime.seconds)
      && forall j :: 0 <= j < k ==> !Qualifies(events[j], restoreTime.seconds)
    ensures var events := Flatten(env.batches);
      var c := CatchupToGtid(cfg, deps, env.catchup, events[k].gtid, LastGtid(events[..k], ""));
      var run := RestoreToTime(cfg, deps, env, pos, restoreTime);
      && run.actions == [StreamFrom(pos)] + c.actions
      && (run.outcome == Ok <==> c.outcome == Ok)
  {
    ResolveSpec(Flatten(env.batches), env.ending, restoreTime.seconds);
  }

  /** One event at t=100 with GTID "G100", restore time
      95 and no earlier GTID: the catch-up runs to ("G100", ""). */
  lemma RestoreToTimeExample(cfg: Config, deps: Deps, env: PitrEnv, pos: Position)
    requires BinlogConfigured(cfg)
    requires env.batches == [[Event("G100", 100)]]
    ensures var c := CatchupToGtid(cfg, deps, env.catchup, "G100", "");
      RestoreToTime(cfg, deps, env, pos, VtTime(95, 0)).actions == [StreamFrom(pos)] + c.actions
  {
    assert Flatten(env.batches) == [Event("G100", 100)] by {
      assert Flatten(env.batches[1..]) == [];
    }
  }
}
