/** The topology records the restore flow reads and writes: tablet types,
    aliases, keyspace descriptors and shard records. */
module Topodata {
  import opened Wrappers

  /** The advertised role of a tablet. */
  datatype TabletType =
    | UNKNOWN | MASTER | REPLICA | RDONLY | BATCH | SPARE
    | EXPERIMENTAL | BACKUP | RESTORE | DRAINED

  /** Unique identity of a tablet: its cell and a numeric id. */
  datatype TabletAlias = TabletAlias(cell: string, uid: nat)

  datatype KeyspaceType = NORMAL | SNAPSHOT

  /** A point in time as the topology stores it. */
  datatype VtTime = VtTime(seconds: int, nanoseconds: int)

  /** What the topology server knows about a keyspace. */
  datatype KeyspaceInfo = KeyspaceInfo(
    keyspaceType: KeyspaceType,
    baseKeyspace: string,
    snapshotTime: Option<VtTime>)

  /** The shard record: the alias of the recorded master, if any. */
  datatype ShardInfo = ShardInfo(masterAlias: Option<TabletAlias>)

  /** The fields of this tablet's own record that the restore flow reads;
      `dbName` is the database name derived from the record. */
  datatype TabletRecord = TabletRecord(alias: TabletAlias, keyspace: string, shard: string, dbName: string)

  /** The master's tablet record: where its MySQL listens. */
  datatype TabletInfo = TabletInfo(mysqlHostname: string, mysqlPort: int)
}
