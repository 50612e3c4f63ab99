/** The GTID resolver: finds, in the change-event stream that starts at the
    restored position, the first transaction committed after the restore
    time, and the last transaction seen before it. */
module GtidResolver {
  /** One change event: its GTID (possibly empty) and its timestamp in seconds. */
  datatype Event = Event(gtid: string, timestamp: int)

  /** An event that ends the scan: it carries a GTID and is strictly later
      than the restore time. */
  predicate Qualifies(e: Event, restoreTime: int) {
    e.gtid != "" && e.timestamp > restoreTime
  }

  /** The scan state: still looking, with the last GTID seen so far, or done,
      with the qualifying GTID and the one seen before it. */
  datatype ScanState = Pending(stopPos: string) | Found(gtid: string, stopPos: string)

  /** The left-to-right scan, from the state `stopPos`. */
  function Scan(events: seq<Event>, restoreTime: int, stopPos: string): ScanState
    decreases |events|
  {
    if events == [] then Pending(stopPos)
    else if Qualifies(events[0], restoreTime) then Found(events[0].gtid, stopPos)
    else Scan(events[1..], restoreTime, if events[0].gtid != "" then events[0].gtid else stopPos)
  }

  /** Reference definition: the last non-empty GTID of `events`, or `dflt`. */
  function LastGtid(events: seq<Event>, dflt: string): string
    decreases |events|
  {
    if events == [] then dflt
    else if events[|events| - 1].gtid != "" then events[|events| - 1].gtid
    else LastGtid(events[..|events| - 1], dflt)
  }

  /** The events of all batches, in arrival order. */
  function Flatten(batches: seq<seq<Event>>): seq<Event>
    decreases |batches|
  {
    if batches == [] then [] else batches[0] + Flatten(batches[1..])
  }

  lemma {:induction false} LastGtidCons(e: Event, rest: seq<Event>, dflt: string)
    ensures LastGtid([e] + rest, dflt) == LastGtid(rest, if e.gtid != "" then e.gtid else dflt)
    decreases |rest|
  {
    if rest == [] {
      assert [e] + rest == [e];
      assert [e][..0] == [];
    } else {
      var n := |rest|;
      assert ([e] + rest)[..n] == [e] + rest[..n - 1];
      assert ([e] + rest)[n] == rest[n - 1];
      LastGtidCons(e, rest[..n - 1], dflt);
    }
  }

  /** The scan, characterised: if some event qualifies, the result is the
      first qualifying GTID with the last GTID before it (or the starting
      stop position); otherwise the scan is still pending, holding the last
      GTID of all the events. */
  lemma {:induction false} ScanFindsFirstQualifying(events: seq<Event>, restoreTime: int, stopPos: string, k: nat)
    requires k < |events| && Qualifies(events[k], restoreTime)
    requires forall j :: 0 <= j < k ==> !Qualifies(events[j], restoreTime)
    ensures Scan(events, restoreTime, stopPos) == Found(events[k].gtid, LastGtid(events[..k], stopPos))
    decreases k
  {
    if k == 0 {
      assert events[..0] == [];
    } else {
      var e := events[0];
      var s' := if e.gtid != "" then e.gtid else stopPos;
      assert !Qualifies(e, restoreTime);
      ScanFindsFirstQualifying(events[1..], restoreTime, s', k - 1);
      assert events[..k] == [e] + events[1..][..k - 1];
      LastGtidCons(e, events[1..][..k - 1], stopPos);
    }
  }

  lemma {:induction false} ScanPendingWithoutQualifying(events: seq<Event>, restoreTime: int, stopPos: string)
    requires forall j :: 0 <= j < |events| ==> !Qualifies(events[j], restoreTime)
    ensures Scan(events, restoreTime, stopPos) == Pending(LastGtid(events, stopPos))
    decreases |events|
  {
    if events != [] {
      var e := events[0];
      var s' := if e.gtid != "" then e.gtid else stopPos;
      ScanPendingWithoutQualifying(events[1..], restoreTime, s');
      assert events == [e] + events[1..];
      LastGtidCons(e, events[1..], stopPos);
    }
  }

  /** Scanning a concatenation is scanning the first part, then, if still
      pending, the second from where the first left off: the split of the
      stream into batches does not matter. */
  lemma {:induction false} ScanAppend(a: seq<Event>, b: seq<Event>, restoreTime: int, stopPos: string)
    ensures Scan(a + b, restoreTime, stopPos) ==
      match Scan(a, restoreTime, stopPos)
      case Found(g, s) => Found(g, s)
      case Pending(s) => Scan(b, restoreTime, s)
    decreases |a|
  {
    if a == [] {
      assert a + b == b;
    } else {
      assert (a + b)[0] == a[0];
      assert (a + b)[1..] == a[1..] + b;
      ScanAppend(a[1..], b, restoreTime, if a[0].gtid != "" then a[0].gtid else stopPos);
    }
  }

  /** Events after a qualifying one never change the result. */
  lemma ScanIgnoresLaterEvents(a: seq<Event>, b: seq<Event>, restoreTime: int, stopPos: string)
    requires Scan(a, restoreTime, stopPos).Found?
    ensures Scan(a + b, restoreTime, stopPos) == Scan(a, restoreTime, stopPos)
  {
    ScanAppend(a, b, restoreTime, stopPos);
  }

  /** The callback run on each batch: it updates the captured stop position
      for every event with a GTID, until an event qualifies. */
  method ScanBatch(events: seq<Event>, restoreTime: int, stopPos: string) returns (r: ScanState)
    ensures r == Scan(events, restoreTime, stopPos)
  {
    var s := stopPos;
    var i := 0;
    while i < |events|
      invariant 0 <= i <= |events|
      invariant Scan(events, restoreTime, stopPos) == Scan(events[i..], restoreTime, s)
    {
      var event := events[i];
      assert events[i..][0] == event && events[i..][1..] == events[i + 1..];
      if event.gtid != "" && event.timestamp > restoreTime {
        return Found(event.gtid, s);
      }
      if event.gtid != "" {
        s := event.gtid;
      }
      i := i + 1;
    }
    assert events[i..] == [];
    return Pending(s);
  }

  /** How the stream ended, if no qualifying event arrived before: the
      context was done, the stream returned without error, or it returned an
      error. */
  datatype StreamEnd = StreamCtxDone | StreamClosed | StreamFailed

  /** The resolver's answer: the (target, preceding) GTID pair, possibly
      ("", ""); or the index-out-of-range panic that follows a stream error,
      whose one-element answer is read at index 1. */
  datatype Resolved = Resolved(gtid: string, stopPos: string) | IndexPanic

  /** The resolver's answer on the delivered events and the stream's end. */
  function Resolve(events: seq<Event>, ending: StreamEnd, restoreTime: int): Resolved {
    match Scan(events, restoreTime, "")
    case Found(g, s) => Resolved(g, s)
    case Pending(_) => if ending == StreamFailed then IndexPanic else Resolved("", "")
  }

  /** The answer, stated without the scan: the first qualifying event's GTID
      and the last GTID before it, or ("", "") / the panic when none qualifies. */
  lemma ResolveSpec(events: seq<Event>, ending: StreamEnd, restoreTime: int)
    ensures forall k ::
              0 <= k < |events| && Qualifies(events[k], restoreTime)
              && (forall j :: 0 <= j < k ==> !Qualifies(events[j], restoreTime))
              ==> Resolve(events, ending, restoreTime) == Resolved(events[k].gtid, LastGtid(events[..k], ""))
    ensures (forall j :: 0 <= j < |events| ==> !Qualifies(events[j], restoreTime)) ==>
      Resolve(events, ending, restoreTime) == (if ending == StreamFailed then IndexPanic else Resolved("", ""))
  {
    forall k | 0 <= k < |events| && Qualifies(events[k], restoreTime)
      && (forall j :: 0 <= j < k ==> !Qualifies(events[j], restoreTime))
      ensures Resolve(events, ending, restoreTime) == Resolved(events[k].gtid, LastGtid(events[..k], ""))
    {
      ScanFindsFirstQualifying(events, restoreTime, "", k);
    }
    if forall j :: 0 <= j < |events| ==> !Qualifies(events[j], restoreTime) {
      ScanPendingWithoutQualifying(events, restoreTime, "");
    }
  }

  /** A non-empty target GTID always belongs to a qualifying event. */
  lemma {:induction false} ScanFoundQualifies(events: seq<Event>, restoreTime: int, stopPos: string)
    requires Scan(events, restoreTime, stopPos).Found?
    ensures exists k ::
              0 <= k < |events| && Qualifies(events[k], restoreTime)
              && events[k].gtid == Scan(events, restoreTime, stopPos).gtid
    decreases |events|
  {
    if !Qualifies(events[0], restoreTime) {
      var s' := if events[0].gtid != "" then events[0].gtid else stopPos;
      ScanFoundQualifies(events[1..], restoreTime, s');
      var k :| 0 <= k < |events[1..]| && Qualifies(events[1..][k], restoreTime)
        && events[1..][k].gtid == Scan(events[1..], restoreTime, s').gtid;
      assert events[k + 1] == events[1..][k];
    }
  }

  /** The resolver proper: goes through the batches in order, carrying the
      stop position across them, and stops at the first qualifying event. */
  method GetGtidFromTimestamp(batches: seq<seq<Event>>, ending: StreamEnd, restoreTime: int) returns (r: Resolved)
    ensures r == Resolve(Flatten(batches), ending, restoreTime)
  {
    var stopPos := "";
    var i := 0;
    while i < |batches|
      invariant 0 <= i <= |batches|
      invariant Scan(Flatten(batches), restoreTime, "") == Scan(Flatten(batches[i..]), restoreTime, stopPos)
    {
      assert batches[i..][0] == batches[i] && batches[i..][1..] == batches[i + 1..];
      ScanAppend(batches[i], Flatten(batches[i + 1..]), restoreTime, stopPos);
      var st := ScanBatch(batches[i], restoreTime, stopPos);
      match st
      case Found(g, s) =>
        return Resolved(g, s);
      case Pending(s) =>
        stopPos := s;
        i := i + 1;
    }
    assert batches[i..] == [];
    if ending == StreamFailed {
      return IndexPanic;
    }
    return Resolved("", "");
  }
}
