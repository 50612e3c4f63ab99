/** The catch-up driver: points MySQL at the binlog server, replays up to
    (not including) the target GTID, polls the local position until it has
    the preceding GTID, and finally detaches replication. */
module Catchup {
  import opened Wrappers
  import opened VtErrors
  import opened Mysql
  import opened Collaborators

  /** The answers the driver gets from MySQL: the error of the first command
      list, the positions the poller reads before its deadline or the
      context ends, and the error of the final command list. */
  datatype CatchupEnv = CatchupEnv(
    startErr: Option<Err>,
    positions: seq<Result<Position, Err>>,
    resetErr: Option<Err>)

  /** The first command list: stop both replication threads, point at the
      binlog server with auto-positioning, replay until just before `gtidStr`. */
  function CatchupStmts(cfg: Config, gtidStr: string): seq<Stmt> {
    [ StopSlaveForChannel,
      StopSlaveIoThread,
      ChangeMasterTo(cfg.binlogHost, cfg.binlogPort, cfg.binlogUser),
      StartSlaveUntilBefore(gtidStr) ]
  }

  /** The text sent for the first list: the binlog server's host, its port
      in decimal (which reads back as the port) and its user, and the GTID to
      stop before; and the text of the final list. */
  lemma CatchupStmtsText(cfg: Config, gtidStr: string)
    requires cfg.binlogPort >= 0
    ensures var s := CatchupStmts(cfg, gtidStr);
      var port := Decimal(cfg.binlogPort);
      && |s| == 4
      && Sql(s[0]) == "STOP SLAVE FOR CHANNEL '' "
      && Sql(s[1]) == "STOP SLAVE IO_THREAD FOR CHANNEL ''"
      && Sql(s[2]) == "CHANGE MASTER TO MASTER_HOST='" + cfg.binlogHost + "',MASTER_PORT=" + port
                      + ", MASTER_USER='" + cfg.binlogUser + "', MASTER_AUTO_POSITION = 1;"
      && (forall i :: 0 <= i < |port| ==> IsDigit(port[i])) && DigitsValue(port) == cfg.binlogPort
      && Sql(s[3]) == " START SLAVE UNTIL SQL_BEFORE_GTIDS = '" + gtidStr + "'"
    ensures Sql(ResetStmts[0]) == "STOP SLAVE" && Sql(ResetStmts[1]) == "RESET SLAVE ALL"
  {
    DecimalRoundTrip(cfg.binlogPort);
  }


  /** How the poll ends. */
  datatype PollResult = CaughtUp | PositionError | PollTimedOut

  /** A position sample that ends the poll: a read error, or a position that
      has every transaction of `stop`. */
  predicate Decisive(sample: Result<Position, Err>, stop: Position) {
    sample.Failure? || AtLeast(sample.value, stop)
  }

  /** The poll on the samples read before the deadline or the end of the
      context. */
  function Poll(samples: seq<Result<Position, Err>>, stop: Position): PollResult
    decreases |samples|
  {
    if samples == [] then PollTimedOut
    else match samples[0]
      case Failure(_) => PositionError
      case Success(p) => if AtLeast(p, stop) then CaughtUp else Poll(samples[1..], stop)
  }

  /** The poller as a loop: read the position, stop on an error or once it
      is at least the stop position. */
  method PollPosition(samples: seq<Result<Position, Err>>, stop: Position) returns (r: PollResult)
    ensures r == Poll(samples, stop)
  {
    var i := 0;
    while i < |samples|
      invariant 0 <= i <= |samples|
      invariant Poll(samples, stop) == Poll(samples[i..], stop)
    {
      assert samples[i..][0] == samples[i] && samples[i..][1..] == samples[i + 1..];
      match samples[i]
      case Failure(_) =>
        return PositionError;
      case Success(pos) =>
        if AtLeast(pos, stop) {
          return CaughtUp;
        }
        i := i + 1;
    }
    return PollTimedOut;
  }

  /** The poll's result is decided by the first decisive sample... */
  lemma {:induction false} PollFirstDecisive(samples: seq<Result<Position, Err>>, stop: Position, k: nat)
    requires k < |samples| && Decisive(samples[k], stop)
    requires forall j :: 0 <= j < k ==> !Decisive(samples[j], stop)
    ensures Poll(samples, stop) == if samples[k].Failure? then PositionError else CaughtUp
    decreases k
  {
    if k > 0 {
      assert !Decisive(samples[0], stop);
      PollFirstDecisive(samples[1..], stop, k - 1);
    }
  }

  /** ... and without one the poll times out. */
  lemma {:induction false} PollWithoutDecisive(samples: seq<Result<Position, Err>>, stop: Position)
    requires forall j :: 0 <= j < |samples| ==> !Decisive(samples[j], stop)
    ensures Poll(samples, stop) == PollTimedOut
    decreases |samples|
  {
    if samples != [] {
      assert !Decisive(samples[0], stop);
      PollWithoutDecisive(samples[1..], stop);
    }
  }

  /** The poll reports "caught up" exactly when some sample has every
      transaction of `stop` and no earlier sample failed or had them. */
  lemma {:induction false} PollCaughtUpIff(samples: seq<Result<Position, Err>>, stop: Position)
    ensures Poll(samples, stop) == CaughtUp <==>
      exists k :: 0 <= k < |samples| && samples[k].Success? && AtLeast(samples[k].value, stop)
                  && forall j :: 0 <= j < k ==> !Decisive(samples[j], stop)
    decreases |samples|
  {
    if samples != [] {
      PollCaughtUpIff(samples[1..], stop);
      if Poll(samples, stop) == CaughtUp && !Decisive(samples[0], stop) {
        var k :| 0 <= k < |samples[1..]| && samples[1..][k].Success? && AtLeast(samples[1..][k].value, stop)
                 && forall j :: 0 <= j < k ==> !Decisive(samples[1..][j], stop);
        assert forall j :: 0 <= j < k + 1 ==> !Decisive(samples[j], stop) by {
          forall j | 0 <= j < k + 1 ensures !Decisive(samples[j], stop) {
            if j > 0 { assert samples[j] == samples[1..][j - 1]; }
          }
        }
        assert samples[k + 1] == samples[1..][k];
      }
      if exists k :: 0 <= k < |samples| && samples[k].Success? && AtLeast(samples[k].value, stop)
                     && forall j :: 0 <= j < k ==> !Decisive(samples[j], stop) {
        var k :| 0 <= k < |samples| && samples[k].Success? && AtLeast(samples[k].value, stop)
                 && forall j :: 0 <= j < k ==> !Decisive(samples[j], stop);
        PollFirstDecisive(samples, stop, k);
      }
    }
  }

  /** catchupToGTID: decode both GTIDs, issue the first command list, poll,
      and on success issue the final command list. The failure answers of the
      poll wrap the function's own error variable, nil at that point. */
  function CatchupToGtid(cfg: Config, deps: Deps, env: CatchupEnv, gtid: string, stopPosGtid: string): Run {
    match deps.decodePosition(gtid)
    case Failure(e) => Run(Returned(Some(e)), [])
    case Success(gtidParsed) =>
      match deps.decodePosition(stopPosGtid)
      case Failure(e) => Run(Returned(Some(e)), [])
      case Success(stopParsed) =>
        var start := Exec(CatchupStmts(cfg, deps.last(gtidParsed)));
        if env.startErr.Some? then
          Run(Returned(Wrap(env.startErr, "failed to reset slave", deps.wrapNilIsNil)), [start])
        else
          match Poll(env.positions, stopParsed)
          case CaughtUp =>
            Run(Returned(if env.resetErr.Some? then Wrap(env.resetErr, "failed to reset slave", deps.wrapNilIsNil) else None),
                [start, Exec(ResetStmts)])
          case PositionError =>
            Run(Returned(Wrap(None, "error while fetching the current gtid position", deps.wrapNilIsNil)), [start])
          case PollTimedOut =>
            Run(Returned(Wrap(None, "context timeout while restoring upto specified gtid", deps.wrapNilIsNil)), [start])
  }

  /** A GTID that does not decode stops the driver before any command. */
  lemma CatchupDecodeFailure(cfg: Config, deps: Deps, env: CatchupEnv, gtid: string, stopPosGtid: string)
    requires deps.decodePosition(gtid).Failure? || deps.decodePosition(stopPosGtid).Failure?
    ensures CatchupToGtid(cfg, deps, env, gtid, stopPosGtid).actions == []
    ensures CatchupToGtid(cfg, deps, env, gtid, stopPosGtid).outcome ==
      Returned(Some(if deps.decodePosition(gtid).Failure? then deps.decodePosition(gtid).error
                    else deps.decodePosition(stopPosGtid).error))
  {
  }

  /** With both GTIDs decoded, the driver first issues the four catch-up
      statements, bounded by the last GTID of the target; it issues the final
      STOP SLAVE / RESET SLAVE ALL exactly when those succeeded and a polled
      position had every transaction of the PRECEDING GTID, and nothing else. */
  lemma CatchupCommands(cfg: Config, deps: Deps, env: CatchupEnv, gtid: string, stopPosGtid: string)
    requires deps.decodePosition(gtid).Success? && deps.decodePosition(stopPosGtid).Success?
    ensures var run := CatchupToGtid(cfg, deps, env, gtid, stopPosGtid);
      && 1 <= |run.actions| <= 2
      && run.actions[0] == Exec(CatchupStmts(cfg, deps.last(deps.decodePosition(gtid).value)))
      && (|run.actions| == 2 <==>
            env.startErr.None? &&
            exists k :: 0 <= k < |env.positions| && env.positions[k].Success?
                        && AtLeast(env.positions[k].value, deps.decodePosition(stopPosGtid).value)
                        && forall j :: 0 <= j < k ==> !Decisive(env.positions[j], deps.decodePosition(stopPosGtid).value))
      && (|run.actions| == 2 ==> run.actions[1] == Exec(ResetStmts))
  {
    PollCaughtUpIff(env.positions, deps.decodePosition(stopPosGtid).value);
  }

  /** When the driver reports success: the final reset went through after the
      poll caught up, or -- if the wrapper keeps nil as nil -- the poll failed
      or timed out and its nil-wrapping error vanished. */
  lemma CatchupNilMeans(cfg: Config, deps: Deps, env: CatchupEnv, gtid: string, stopPosGtid: string)
    requires deps.decodePosition(gtid).Success? && deps.decodePosition(stopPosGtid).Success?
    ensures var run := CatchupToGtid(cfg, deps, env, gtid, stopPosGtid);
      var caught := Poll(env.positions, deps.decodePosition(stopPosGtid).value) == CaughtUp;
      run.outcome == Ok <==>
        env.startErr.None? && ((caught && env.resetErr.None?) || (!caught && deps.wrapNilIsNil))
  {
  }

  /** The nil-wrapping quirk: with a wrapper that keeps nil, a poll that times
      out is reported as success although replication was never reset. */
  lemma CatchupTimeoutLooksLikeSuccess(cfg: Config, deps: Deps, env: CatchupEnv, gtid: string, stopPosGtid: string)
    requires deps.decodePosition(gtid).Success? && deps.decodePosition(stopPosGtid).Success?
    requires env.startErr.None? && deps.wrapNilIsNil
    requires forall j :: 0 <= j < |env.positions| ==> !Decisive(env.positions[j], deps.decodePosition(stopPosGtid).value)
    ensures CatchupToGtid(cfg, deps, env, gtid, stopPosGtid).outcome == Ok
    ensures Exec(ResetStmts) !in CatchupToGtid(cfg, deps, env, gtid, stopPosGtid).actions
  {
    PollWithoutDecisive(env.positions, deps.decodePosition(stopPosGtid).value);
  }
}
