/** What the restore flow sees of the world around it: the configuration it
    is started with, the helpers it calls but that are defined elsewhere, the
    calls it issues, and how a call can end. */
module Collaborators {
  import opened Wrappers
  import opened Topodata
  import opened VtErrors
  import opened Mysql

  /** The restore flags, fixed for the whole run. */
  datatype Config = Config(
    restoreConcurrency: int,
    binlogHost: string,
    binlogPort: int,
    binlogUser: string,
    binlogPassword: string,
    initTabletType: string)

  /** Helpers the flow calls that are defined outside the modelled file; the
      model makes no assumption about them. */
  datatype Deps = Deps(
    decodePosition: string -> Result<Position, Err>,
    last: Position -> string,
    parseTabletType: string -> Option<TabletType>,
    masterEligible: TabletType -> bool,
    aliasString: TabletAlias -> string,
    wrapNilIsNil: bool)

  /** The parameters handed to the backup engine for one restore attempt. */
  datatype RestoreParams = RestoreParams(
    concurrency: int,
    localMetadata: map<string, string>,
    deleteBeforeRestore: bool,
    dbName: string,
    keyspace: string,
    shard: string,
    startTime: Option<VtTime>)

  /** A call with a side effect issued by the flow, in the order issued. */
  datatype Action =
    | UpdateState(tabletType: TabletType)
    | RestoreBackup(params: RestoreParams)
    | StreamFrom(pos: Position)
    | Exec(stmts: seq<Stmt>)
    | SetReplicationPosition(pos: Position)
    | FixSemiSync(tabletType: TabletType)
    | SetMaster(host: string, port: int, stopBefore: bool, startAfter: bool)

  /** Calls that change MySQL replication state. */
  predicate TouchesReplication(a: Action) {
    a.Exec? || a.SetReplicationPosition? || a.FixSemiSync? || a.SetMaster?
  }

  /** How a call ends: it returns an error or nil, it panics, or the finite
      trace of collaborator answers runs out while it is still waiting. */
  datatype Outcome = Returned(err: Option<Err>) | Panicked | Unfinished

  const Ok := Returned(None)

  /** What one call did: how it ended and the calls it issued, in order. */
  datatype Run = Run(outcome: Outcome, actions: seq<Action>)
}
