/** The event log: numbered records whose logical time never runs backwards (src/event_log.py). */
module EventLogs {
  import opened Wrappers
  import opened Ordering

  /** The 21 canonical types; `Unknown` is any other string a caller may pass. */
  datatype EventType =
    | SEND | DELIVER | DROP | DELAY | DUPLICATE | PEER_BLOCK | PEER_UNBLOCK | REJECT | PROPOSE | PREVOTE | PRECOMMIT
    | LOCK | TIMEOUT | ROUND_CHANGE | FINALIZE | EQUIVOCATION | CRASH | RESTART | SCENARIO_START | SCENARIO_END
    | NODE_INIT | Unknown(name: string)

  datatype Detail = Number(n: int) | Text(text: Bytes)

  /** One line of the file; the details of a line are written in key order, so a map determines them. */
  datatype Record = Record(
    eventNo: int, logicalTime: int, nodeId: Bytes, eventType: EventType, height: int, round: int,
    details: map<string, Detail>)

  datatype LogError = LogClosed | NonMonotonicEventNo | InvalidLogicalTime | NonMonotonicLogicalTime | UnknownEventType

  datatype Log = Log(records: seq<Record>, eventCount: nat, lastLogicalTime: Option<int>, closed: bool)

  const EMPTY_LOG: Log := Log([], 0, None, false)

  /** `write_event`: the guards in the source's order, then one more line. */
  ghost function Write(log: Log, r: Record): Result<Log, LogError> {
    if log.closed then Err(LogClosed)
    else if r.eventNo != log.eventCount + 1 then Err(NonMonotonicEventNo)
    else if r.logicalTime < 0 then Err(InvalidLogicalTime)
    else if log.lastLogicalTime.Some? && r.logicalTime < log.lastLogicalTime.value then Err(NonMonotonicLogicalTime)
    else if r.eventType.Unknown? then Err(UnknownEventType)
    else Ok(Log(log.records + [r], log.eventCount + 1, Some(r.logicalTime), false))
  }

  datatype LogOp = WriteEvent(record: Record) | Close

  ghost function Apply(log: Log, op: LogOp): Log {
    match op
    case WriteEvent(r) => var written := Write(log, r); if written.Ok? then written.value else log
    case Close => log.(closed := true)
  }

  ghost function RunLog(log: Log, ops: seq<LogOp>): Log
    decreases |ops|
  {
    if ops == [] then log else RunLog(Apply(log, ops[0]), ops[1..])
  }

  /** Numbers 1..k, times from zero up that never decrease, only canonical types, and counters that agree. */
  ghost predicate WellNumbered(log: Log) {
    log.eventCount == |log.records|
    && (forall i :: 0 <= i < |log.records| ==>
          log.records[i].eventNo == i + 1 && 0 <= log.records[i].logicalTime && !log.records[i].eventType.Unknown?)
    && (forall i, j :: 0 <= i < j < |log.records| ==> log.records[i].logicalTime <= log.records[j].logicalTime)
    && log.lastLogicalTime == (if log.records == [] then None else Some(log.records[|log.records| - 1].logicalTime))
  }

  lemma ApplyKeepsNumbers(log: Log, op: LogOp)
    requires WellNumbered(log)
    ensures WellNumbered(Apply(log, op)) && log.records <= Apply(log, op).records
    ensures log.closed ==> Apply(log, op) == log
  {
  }

  /** Whatever is written or refused and whenever the log is closed, the file is a numbered, timed sequence, it only
      grows, and nothing follows the close. */
  lemma {:induction false} EveryLogIsNumbered(log: Log, ops: seq<LogOp>)
    requires WellNumbered(log)
    ensures WellNumbered(RunLog(log, ops)) && log.records <= RunLog(log, ops).records
    ensures log.closed ==> RunLog(log, ops) == log
    decreases |ops|
  {
    if ops != [] {
      ApplyKeepsNumbers(log, ops[0]);
      EveryLogIsNumbered(Apply(log, ops[0]), ops[1..]);
    }
  }

  /** A record is accepted exactly when the log is open and the file with it appended is still well numbered. */
  lemma AcceptedExactlyWhen(log: Log, r: Record)
    requires WellNumbered(log)
    ensures Write(log, r).Ok? <==>
            !log.closed && WellNumbered(Log(log.records + [r], |log.records| + 1, Some(r.logicalTime), false))
  {
    var next := Log(log.records + [r], |log.records| + 1, Some(r.logicalTime), false);
    assert next.records[|log.records|] == r;
    if WellNumbered(next) && log.records != [] {
      assert next.records[|log.records| - 1].logicalTime <= next.records[|log.records|].logicalTime;
    }
  }

  /** The error of a refused record names the first rule that it breaks. */
  lemma RefusedBecause(log: Log, r: Record)
    requires WellNumbered(log) && Write(log, r).Err?
    ensures var why := Write(log, r).error;
            var timely := log.records == [] || log.records[|log.records| - 1].logicalTime <= r.logicalTime;
            (why.LogClosed? <==> log.closed)
            && (why.NonMonotonicEventNo? <==> !log.closed && r.eventNo != |log.records| + 1)
            && (why.InvalidLogicalTime? ==> r.eventNo == |log.records| + 1 && r.logicalTime < 0)
            && (why.NonMonotonicLogicalTime? ==> r.eventNo == |log.records| + 1 && 0 <= r.logicalTime && !timely)
            && (why.UnknownEventType? ==>
                  r.eventNo == |log.records| + 1 && 0 <= r.logicalTime && timely && r.eventType.Unknown?)
  {
  }

  class EventLog {
    /** The lines of the file. */
    var records: seq<Record>
    var eventCount: nat
    var lastLogicalTime: Option<int>
    var closed: bool

    ghost function View(): Log
      reads this
    {
      Log(records, eventCount, lastLogicalTime, closed)
    }

    constructor ()
      ensures View() == EMPTY_LOG && WellNumbered(View())
    {
      records, eventCount, lastLogicalTime, closed := [], 0, None, false;
    }

    method WriteEvent(r: Record) returns (error: Option<LogError>)
      modifies this
      ensures View() == Apply(old(View()), LogOp.WriteEvent(r))
      ensures error == (match Write(old(View()), r) case Ok(_) => None case Err(e) => Some(e))
    {
      if closed {
        return Some(LogClosed);
      }
      var expected := eventCount + 1;
      if r.eventNo != expected {
        return Some(NonMonotonicEventNo);
      }
      if r.logicalTime < 0 {
        return Some(InvalidLogicalTime);
      }
      if lastLogicalTime.Some? && r.logicalTime < lastLogicalTime.value {
        return Some(NonMonotonicLogicalTime);
      }
      if r.eventType.Unknown? {
        return Some(UnknownEventType);
      }
      records := records + [r];
      eventCount := eventCount + 1;
      lastLogicalTime := Some(r.logicalTime);
      error := None;
    }

    method Close()
      modifies this
      ensures View() == Apply(old(View()), LogOp.Close)
    {
      if closed {
        return;
      }
      closed := true;
    }
  }
}
