/** Replication positions and the replication statements the restore flow
    sends to MySQL. */
module Mysql {
  /** A replication position, seen as the set of GTIDs it contains. */
  datatype Position = Position(gtids: set<string>)

  /** The zero position: no transaction applied. */
  const ZeroPosition := Position({})

  /** `a` contains every transaction of `b`. */
  predicate AtLeast(a: Position, b: Position) {
    b.gtids <= a.gtids
  }

  /** The statements of `ExecuteSuperQueryList` command lists. */
  datatype Stmt =
    | StopSlaveForChannel
    | StopSlaveIoThread
    | ChangeMasterTo(host: string, port: int, user: string)
    | StartSlaveUntilBefore(gtids: string)
    | StopSlave
    | ResetSlaveAll

  /** The command list that stops replication and forgets the source; the
      catch-up driver sends it after replaying, the reattachment first. */
  const ResetStmts: seq<Stmt> := [StopSlave, ResetSlaveAll]

  /** Decimal rendering of an integer, as `%d` prints it. */
  function Decimal(n: int): (s: string)
    ensures |s| > 0
    decreases if n < 0 then 1 - n else n
  {
    if n < 0 then "-" + Decimal(-n)
    else if n < 10 then [DigitChar(n)]
    else Decimal(n / 10) + [DigitChar(n % 10)]
  }

  function DigitChar(d: int): char
    requires 0 <= d < 10
  {
    ('0' as int + d) as char
  }

  predicate IsDigit(c: char) {
    '0' <= c <= '9'
  }

  /** The number a string of decimal digits denotes. */
  function DigitsValue(s: string): int
    requires forall i :: 0 <= i < |s| ==> IsDigit(s[i])
    decreases |s|
  {
    if s == [] then 0 else DigitsValue(s[..|s| - 1]) * 10 + (s[|s| - 1] as int - '0' as int)
  }

  /** `%d` of a non-negative number is a string of digits that reads back
      as the number. */
  lemma {:induction false} DecimalRoundTrip(n: nat)
    ensures forall i :: 0 <= i < |Decimal(n)| ==> IsDigit(Decimal(n)[i])
    ensures DigitsValue(Decimal(n)) == n
    decreases n
  {
    if n >= 10 {
      DecimalRoundTrip(n / 10);
      var s := Decimal(n);
      assert s[..|s| - 1] == Decimal(n / 10);
    }
  }

  /** The SQL text sent for each statement. */
  function Sql(s: Stmt): string {
    match s
    case StopSlaveForChannel => "STOP SLAVE FOR CHANNEL '' "
    case StopSlaveIoThread => "STOP SLAVE IO_THREAD FOR CHANNEL ''"
    case ChangeMasterTo(host, port, user) =>
      "CHANGE MASTER TO MASTER_HOST='" + host + "',MASTER_PORT=" + Decimal(port)
      + ", MASTER_USER='" + user + "', MASTER_AUTO_POSITION = 1;"
    case StartSlaveUntilBefore(gtids) => " START SLAVE UNTIL SQL_BEFORE_GTIDS = '" + gtids + "'"
    case StopSlave => "STOP SLAVE"
    case ResetSlaveAll => "RESET SLAVE ALL"
  }
}
