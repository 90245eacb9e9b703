/** The deterministic scheduler: a priority queue with lazy deletion (src/scheduler.py).
    It refines a plain table from keys to envelopes from which the least key is taken. */
module Schedulers {
  import opened Wrappers
  import opened Ordering

  /** (logical_time, insertion_seq), compared lexicographically. */
  datatype Key = Key(time: nat, sequence: nat)

  datatype Envelope = Envelope(sender: Bytes, receiver: Bytes, payload: Bytes, logicalTime: nat, insertionSeq: nat) {
    function OrderingKey(): Key {
      Key(logicalTime, insertionSeq)
    }
  }

  predicate Before(a: Key, b: Key) {
    a.time < b.time || (a.time == b.time && a.sequence < b.sequence)
  }

  type Active = map<Key, Envelope>

  datatype ScheduleError = TimeInPast | KeyInPast | DuplicateKey

  /** What a scheduler means: the envelopes waiting, every key ever used, the clock and the last key popped. */
  datatype Plain = Plain(active: Active, seen: set<Key>, time: nat, last: Option<Key>)

  const IDLE: Plain := Plain(map[], {}, 0, None)

  // ---------- the plain machine ----------

  ghost predicate IsNext(k: Key, active: Active) {
    k in active && forall j :: j in active && j != k ==> Before(k, j)
  }

  lemma {:induction false} NextExists(active: Active)
    requires active != map[]
    ensures exists k :: IsNext(k, active)
    decreases |active|
  {
    assert active.Keys == {} ==> active == map[];
    var k :| k in active;
    var rest := active - {k};
    assert forall j :: j in active <==> j == k || j in rest;
    if rest == map[] {
      assert forall j :: j in active ==> j == k || j in rest;
      assert IsNext(k, active);
    } else {
      assert rest.Keys == active.Keys - {k};
      NextExists(rest);
      var j :| IsNext(j, rest);
      assert IsNext(if Before(k, j) then k else j, active);
    }
  }

  ghost function NextKey(active: Active): (k: Key)
    requires active != map[]
    ensures IsNext(k, active)
  {
    NextExists(active);
    var k :| IsNext(k, active);
    k
  }

  ghost function Accept(p: Plain, e: Envelope): Result<Plain, ScheduleError> {
    var key := e.OrderingKey();
    if e.logicalTime < p.time then Err(TimeInPast)
    else if p.last.Some? && e.logicalTime == p.time && Before(key, p.last.value) then Err(KeyInPast)
    else if key in p.seen then Err(DuplicateKey)
    else Ok(p.(active := p.active[key := e], seen := p.seen + {key}))
  }

  ghost function Take(p: Plain, key: Key): Plain {
    p.(active := p.active - {key}, time := key.time, last := Some(key))
  }

  ghost function PopNext(p: Plain): (Plain, Option<Envelope>) {
    if p.active == map[] then (p, None)
    else (Take(p, NextKey(p.active)), Some(p.active[NextKey(p.active)]))
  }

  ghost predicate Cancels(p: Plain, e: Envelope) {
    e.OrderingKey() in p.active && p.active[e.OrderingKey()] == e
  }

  ghost function Withdraw(p: Plain, e: Envelope): Plain {
    if Cancels(p, e) then p.(active := p.active - {e.OrderingKey()}) else p
  }

  /** Envelopes sit under their own keys, used keys are remembered, and all that waits comes after the last pop. */
  ghost predicate PlainOk(p: Plain) {
    (forall k :: k in p.active ==> p.active[k].OrderingKey() == k && k in p.seen && p.time <= k.time)
    && (p.last.None? ==> p.time == 0)
    && (p.last.Some? ==> p.last.value in p.seen && p.last.value.time == p.time)
    && (forall k :: p.last.Some? && k in p.active ==> Before(p.last.value, k))
  }

  lemma ScheduleKeepsOk(p: Plain, e: Envelope)
    requires PlainOk(p) && Accept(p, e).Ok?
    ensures PlainOk(Accept(p, e).value)
  {
  }

  lemma PopKeepsOk(p: Plain)
    requires PlainOk(p)
    ensures PlainOk(PopNext(p).0)
  {
  }

  // ---------- runs ----------

  datatype Op = OpSchedule(envelope: Envelope) | OpPop | OpCancel(target: Envelope)

  /** A scheduler with everything that ever happened to it: accepted, popped in order, cancelled. */
  datatype Trace = Trace(plain: Plain, accepted: Active, popped: seq<Envelope>, cancelled: set<Key>)

  ghost function Perform(t: Trace, op: Op): Trace {
    match op
    case OpSchedule(e) =>
      var next := Accept(t.plain, e);
      if next.Err? then t else t.(plain := next.value, accepted := t.accepted[e.OrderingKey() := e])
    case OpPop =>
      var (next, e) := PopNext(t.plain);
      if e.None? then t else t.(plain := next, popped := t.popped + [e.value])
    case OpCancel(e) =>
      if Cancels(t.plain, e)
      then t.(plain := Withdraw(t.plain, e), cancelled := t.cancelled + {e.OrderingKey()})
      else t
  }

  ghost function RunOps(t: Trace, ops: seq<Op>): Trace
    decreases |ops|
  {
    if ops == [] then t else RunOps(Perform(t, ops[0]), ops[1..])
  }

  ghost predicate Increasing(popped: seq<Envelope>) {
    forall i, j :: 0 <= i < j < |popped| ==> Before(popped[i].OrderingKey(), popped[j].OrderingKey())
  }

  ghost predicate WasPopped(popped: seq<Envelope>, k: Key) {
    exists i :: 0 <= i < |popped| && popped[i].OrderingKey() == k
  }

  /** The keys of the accepted envelopes split into waiting, popped and cancelled, without overlap. */
  ghost predicate Accounted(t: Trace) {
    forall k ::
      (k in t.accepted <==> k in t.plain.active || WasPopped(t.popped, k) || k in t.cancelled)
      && !(k in t.plain.active && WasPopped(t.popped, k))
      && !(k in t.plain.active && k in t.cancelled)
      && !(WasPopped(t.popped, k) && k in t.cancelled)
  }

  /** What waits, and what was popped, is the very envelope that was accepted. */
  ghost predicate Unaltered(t: Trace) {
    (forall k :: k in t.plain.active ==> k in t.accepted && t.accepted[k] == t.plain.active[k])
    && (forall i :: 0 <= i < |t.popped| ==>
          t.popped[i].OrderingKey() in t.accepted && t.accepted[t.popped[i].OrderingKey()] == t.popped[i])
  }

  ghost predicate TraceOk(t: Trace) {
    PlainOk(t.plain) && t.accepted.Keys == t.plain.seen && Increasing(t.popped) && Accounted(t) && Unaltered(t)
    && t.plain.last == (if t.popped == [] then None else Some(t.popped[|t.popped| - 1].OrderingKey()))
  }

  lemma PoppedAppends(popped: seq<Envelope>, e: Envelope, k: Key)
    ensures WasPopped(popped + [e], k) <==> WasPopped(popped, k) || k == e.OrderingKey()
  {
    var next := popped + [e];
    assert next[|popped|] == e;
    if WasPopped(popped, k) {
      var i :| 0 <= i < |popped| && popped[i].OrderingKey() == k;
      assert next[i].OrderingKey() == k;
    }
  }

  lemma ScheduleIsAccounted(t: Trace, e: Envelope)
    requires TraceOk(t) && Accept(t.plain, e).Ok?
    ensures TraceOk(Perform(t, OpSchedule(e)))
  {
    ScheduleKeepsOk(t.plain, e);
    var next := Perform(t, OpSchedule(e));
    assert e.OrderingKey() !in t.accepted;
    assert next.accepted.Keys == next.plain.seen;
    hide WasPopped, Increasing;
    assert Accounted(next);
  }

  lemma AppendKeepsIncreasing(popped: seq<Envelope>, e: Envelope)
    requires Increasing(popped)
    requires popped != [] ==> Before(popped[|popped| - 1].OrderingKey(), e.OrderingKey())
    ensures Increasing(popped + [e])
  {
  }

  lemma PopIsAccounted(t: Trace)
    requires TraceOk(t) && t.plain.active != map[]
    ensures TraceOk(Perform(t, OpPop))
  {
    PopKeepsOk(t.plain);
    var k := NextKey(t.plain.active);
    var e := t.plain.active[k];
    var next := Perform(t, OpPop);
    assert next.popped == t.popped + [e];
    AppendKeepsIncreasing(t.popped, e);
    forall j ensures WasPopped(next.popped, j) <==> WasPopped(t.popped, j) || j == k {
      PoppedAppends(t.popped, e, j);
    }
    hide Increasing, WasPopped, IsNext, PlainOk;
    assert Accounted(next);
  }

  lemma CancelIsAccounted(t: Trace, e: Envelope)
    requires TraceOk(t) && Cancels(t.plain, e)
    ensures TraceOk(Perform(t, OpCancel(e)))
  {
    var next := Perform(t, OpCancel(e));
    hide WasPopped, Increasing;
    assert Accounted(next);
  }

  /** Over every run of schedule, pop and cancel: keys come out in strictly increasing order, every accepted key is
      exactly one of waiting, popped and cancelled, and nothing is altered on the way. */
  lemma {:induction false} EveryRunIsOrdered(t: Trace, ops: seq<Op>)
    requires TraceOk(t)
    ensures TraceOk(RunOps(t, ops))
    decreases |ops|
  {
    if ops != [] {
      match ops[0] {
        case OpSchedule(e) =>
          if Accept(t.plain, e).Ok? {
            ScheduleIsAccounted(t, e);
          }
        case OpPop =>
          if t.plain.active != map[] {
            PopIsAccounted(t);
          }
        case OpCancel(e) =>
          if Cancels(t.plain, e) {
            CancelIsAccounted(t, e);
          }
      }
      assert TraceOk(Perform(t, ops[0]));
      EveryRunIsOrdered(Perform(t, ops[0]), ops[1..]);
    }
  }

  lemma FreshTraceIsOk()
    ensures TraceOk(Trace(IDLE, map[], [], {}))
  {
  }

  /** So it is for every run of a new scheduler. */
  lemma NewSchedulerIsOrdered(ops: seq<Op>)
    ensures var t := RunOps(Trace(IDLE, map[], [], {}), ops);
            Increasing(t.popped) && Accounted(t) && Unaltered(t) && t.accepted.Keys == t.plain.seen
  {
    FreshTraceIsOk();
    EveryRunIsOrdered(Trace(IDLE, map[], [], {}), ops);
    hide RunOps, Increasing, Accounted, Unaltered;
  }

  /** Nothing was popped yet, or the last popped envelope comes before e, by tick and then by sequence number. */
  ghost predicate NotOvertaken(t: Trace, e: Envelope) {
    t.popped == []
    || (var last := t.popped[|t.popped| - 1];
        last.logicalTime < e.logicalTime
        || (last.logicalTime == e.logicalTime && last.insertionSeq < e.insertionSeq))
  }

  /** In every run of a new scheduler an envelope is accepted exactly when its key was never accepted before and no
      envelope was popped that is not before it. Accepting adds it to what waits; refusing changes nothing. */
  lemma AcceptedExactlyWhen(ops: seq<Op>, e: Envelope)
    ensures var t := RunOps(Trace(IDLE, map[], [], {}), ops);
            var next := Perform(t, OpSchedule(e));
            var key := Key(e.logicalTime, e.insertionSeq);
            if key !in t.accepted && NotOvertaken(t, e)
            then next == t.(accepted := t.accepted[key := e], plain := next.plain)
                 && next.plain.active == t.plain.active[key := e]
                 && next.plain.time == t.plain.time && next.plain.last == t.plain.last
            else next == t
  {
    var t := RunOps(Trace(IDLE, map[], [], {}), ops);
    FreshTraceIsOk();
    EveryRunIsOrdered(Trace(IDLE, map[], [], {}), ops);
    assert t.popped != [] ==> t.popped[|t.popped| - 1].OrderingKey() in t.accepted;
    hide RunOps, Increasing, Accounted;
  }

  /** Why an envelope was refused: an earlier tick than the clock, a place already passed in this tick, or a used
      key. */
  lemma RefusedBecause(p: Plain, e: Envelope)
    requires Accept(p, e).Err?
    ensures match Accept(p, e).error
            case TimeInPast => e.logicalTime < p.time
            case KeyInPast => e.logicalTime == p.time && p.last.Some? && Before(e.OrderingKey(), p.last.value)
            case DuplicateKey => e.logicalTime >= p.time && e.OrderingKey() in p.seen
  {
  }

  /** Cancelling takes out exactly an envelope that waits; it is never popped and its key is never accepted again. */
  lemma CancelledExactlyWhen(ops: seq<Op>, e: Envelope)
    ensures var t := RunOps(Trace(IDLE, map[], [], {}), ops);
            var next := Perform(t, OpCancel(e));
            var key := Key(e.logicalTime, e.insertionSeq);
            if key in t.plain.active && t.plain.active[key] == e
            then next.cancelled == t.cancelled + {key} && next.plain.active == t.plain.active - {key}
                 && next.popped == t.popped && key in next.plain.seen
            else next == t
  {
    var t := RunOps(Trace(IDLE, map[], [], {}), ops);
    FreshTraceIsOk();
    EveryRunIsOrdered(Trace(IDLE, map[], [], {}), ops);
    hide RunOps, Increasing, Accounted;
  }

  // ---------- the heap with lazy deletion ----------

  /** The heap in the order it yields its entries: pushing keeps that order. */
  function Push(queue: seq<Envelope>, e: Envelope): seq<Envelope> {
    if queue == [] || Before(e.OrderingKey(), queue[0].OrderingKey()) then [e] + queue
    else [queue[0]] + Push(queue[1..], e)
  }

  lemma {:induction false} PushKeepsOrder(queue: seq<Envelope>, e: Envelope)
    requires Increasing(queue) && forall q :: q in queue ==> q.OrderingKey() != e.OrderingKey()
    ensures Increasing(Push(queue, e)) && forall q :: q in Push(queue, e) <==> q in queue || q == e
  {
    if queue != [] && !Before(e.OrderingKey(), queue[0].OrderingKey()) {
      PushKeepsOrder(queue[1..], e);
      assert queue == [queue[0]] + queue[1..];
      forall q | q in Push(queue[1..], e) ensures Before(queue[0].OrderingKey(), q.OrderingKey()) {
      }
    }
  }

  /** The heap holds every waiting envelope, and an entry whose key is not waiting is stale. */
  ghost predicate Queued(queue: seq<Envelope>, active: Active, seen: set<Key>) {
    Increasing(queue)
    && (forall k :: k in active ==> active[k] in queue && active[k].OrderingKey() == k)
    && (forall q :: q in queue ==>
          q.OrderingKey() in seen && (q.OrderingKey() in active ==> active[q.OrderingKey()] == q))
  }

  lemma PushIsQueued(queue: seq<Envelope>, active: Active, seen: set<Key>, e: Envelope)
    requires Queued(queue, active, seen) && e.OrderingKey() !in seen
    ensures Queued(Push(queue, e), active[e.OrderingKey() := e], seen + {e.OrderingKey()})
  {
    PushKeepsOrder(queue, e);
  }

  lemma DroppingStaleIsQueued(queue: seq<Envelope>, active: Active, seen: set<Key>)
    requires Queued(queue, active, seen) && queue != [] && queue[0].OrderingKey() !in active
    ensures Queued(queue[1..], active, seen)
  {
    assert queue == [queue[0]] + queue[1..];
  }

  lemma HeadIsNext(queue: seq<Envelope>, active: Active, seen: set<Key>)
    requires Queued(queue, active, seen) && queue != [] && queue[0].OrderingKey() in active
    ensures IsNext(queue[0].OrderingKey(), active) && active[queue[0].OrderingKey()] == queue[0]
    ensures Queued(queue[1..], active - {queue[0].OrderingKey()}, seen)
  {
    assert queue == [queue[0]] + queue[1..];
    assert queue[0] in queue;
  }

  lemma NextIsUnique(j: Key, k: Key, active: Active)
    requires IsNext(j, active) && IsNext(k, active)
    ensures j == k
  {
  }

  lemma CancelIsQueued(queue: seq<Envelope>, active: Active, seen: set<Key>, key: Key)
    requires Queued(queue, active, seen)
    ensures Queued(queue, active - {key}, seen)
  {
  }

  /** `result` is what left `start` so far: in key order, unaltered, the rest still waits. */
  ghost predicate Drained(start: Active, active: Active, result: seq<Envelope>) {
    Increasing(result)
    && (forall k :: k in start <==> k in active || WasPopped(result, k))
    && (forall k :: k in active ==> k in start && start[k] == active[k])
    && (forall i :: 0 <= i < |result| ==>
          result[i].OrderingKey() in start && start[result[i].OrderingKey()] == result[i])
  }

  lemma DrainOne(start: Active, active: Active, result: seq<Envelope>, key: Key)
    requires Drained(start, active, result) && IsNext(key, active) && active[key].OrderingKey() == key
    requires result != [] ==> Before(result[|result| - 1].OrderingKey(), key)
    ensures Drained(start, active - {key}, result + [active[key]])
  {
    var next := result + [active[key]];
    AppendKeepsIncreasing(result, active[key]);
    forall k ensures WasPopped(next, k) <==> WasPopped(result, k) || k == key {
      PoppedAppends(result, active[key], k);
    }
    hide WasPopped, Increasing, IsNext;
  }

  lemma NothingDrained(start: Active)
    ensures Drained(start, start, [])
  {
  }

  lemma NextWaits(p: Plain)
    requires PlainOk(p) && p.active != map[]
    ensures var k := NextKey(p.active);
            k in p.active && p.active[k].OrderingKey() == k && (p.last.Some? ==> Before(p.last.value, k))
  {
  }

  lemma ActiveShrinks(active: Active, key: Key)
    requires key in active
    ensures |active - {key}| < |active|
  {
    assert (active - {key}).Keys == active.Keys - {key};
  }

  class Scheduler {
    var queue: seq<Envelope>
    var active: Active
    var seenKeys: set<Key>
    var logicalTime: nat
    var lastOrderingKey: Option<Key>

    ghost function View(): Plain
      reads this
    {
      Plain(active, seenKeys, logicalTime, lastOrderingKey)
    }

    ghost predicate Valid()
      reads this
    {
      PlainOk(View()) && Queued(queue, active, seenKeys)
    }

    constructor ()
      ensures Valid() && View() == IDLE
    {
      queue, active, seenKeys, logicalTime, lastOrderingKey := [], map[], {}, 0, None;
    }

    method Schedule(e: Envelope) returns (error: Option<ScheduleError>)
      requires Valid()
      modifies this
      ensures Valid()
      ensures match Accept(old(View()), e)
              case Ok(next) => error == None && View() == next
              case Err(why) => error == Some(why) && View() == old(View())
    {
      var key := e.OrderingKey();
      if e.logicalTime < logicalTime {
        return Some(TimeInPast);
      }
      if lastOrderingKey.Some? && e.logicalTime == logicalTime && Before(key, lastOrderingKey.value) {
        return Some(KeyInPast);
      }
      if key in seenKeys {
        return Some(DuplicateKey);
      }
      ScheduleKeepsOk(View(), e);
      PushIsQueued(queue, active, seenKeys, e);
      hide Queued, PlainOk;
      seenKeys := seenKeys + {key};
      active := active[key := e];
      queue := Push(queue, e);
      error := None;
    }

    /** Drops stale entries until the head is an envelope that still waits. */
    method DiscardStaleHeads()
      requires Valid()
      modifies this`queue
      ensures Valid()
      ensures queue == [] <==> active == map[]
      ensures queue != [] ==> queue[0].OrderingKey() in active && active[queue[0].OrderingKey()] == queue[0]
    {
      while queue != []
        invariant Queued(queue, active, seenKeys)
      {
        var key := queue[0].OrderingKey();
        if key in active && active[key] == queue[0] {
          return;
        }
        DroppingStaleIsQueued(queue, active, seenKeys);
        queue := queue[1..];
      }
    }

    method Peek() returns (e: Option<Envelope>)
      requires Valid()
      modifies this`queue
      ensures Valid() && e == PopNext(View()).1
    {
      DiscardStaleHeads();
      if queue == [] {
        return None;
      }
      HeadIsNext(queue, active, seenKeys);
      NextIsUnique(queue[0].OrderingKey(), NextKey(active), active);
      e := Some(queue[0]);
    }

    method Pop() returns (e: Option<Envelope>)
      requires Valid()
      modifies this
      ensures Valid()
      ensures (View(), e) == PopNext(old(View()))
    {
      DiscardStaleHeads();
      if queue == [] {
        return None;
      }
      PopKeepsOk(View());
      HeadIsNext(queue, active, seenKeys);
      NextIsUnique(queue[0].OrderingKey(), NextKey(active), active);
      var head := queue[0];
      var key := head.OrderingKey();
      assert logicalTime <= head.logicalTime;
      hide Queued, PlainOk, IsNext;
      queue := queue[1..];
      active := active - {key};
      logicalTime := head.logicalTime;
      lastOrderingKey := Some(key);
      e := Some(head);
    }

    method Cancel(e: Envelope) returns (cancelled: bool)
      requires Valid()
      modifies this
      ensures Valid()
      ensures View() == Withdraw(old(View()), e) && cancelled == Cancels(old(View()), e)
    {
      var key := e.OrderingKey();
      if key !in active || active[key] != e {
        return false;
      }
      CancelIsQueued(queue, active, seenKeys, key);
      active := active - {key};
      cancelled := true;
    }

    method Empty() returns (empty: bool)
      requires Valid()
      modifies this`queue
      ensures Valid() && (empty <==> active == map[])
    {
      DiscardStaleHeads();
      empty := queue == [];
    }

    method Len() returns (n: nat)
      requires Valid()
      modifies this`queue
      ensures Valid() && n == |active|
    {
      DiscardStaleHeads();
      n := |active|;
    }

    /** `run` without a handler: every waiting envelope once, in key order. */
    method Run() returns (result: seq<Envelope>)
      requires Valid()
      modifies this
      ensures Valid() && active == map[] && seenKeys == old(seenKeys)
      ensures Drained(old(active), map[], result)
    {
      hide WasPopped, Increasing, Queued, IsNext, PlainOk, Drained;
      NothingDrained(active);
      result := [];
      var empty := Empty();
      while !empty
        invariant Valid() && (empty <==> active == map[]) && seenKeys == old(seenKeys)
        invariant Drained(old(active), active, result)
        invariant result != [] ==> lastOrderingKey == Some(result[|result| - 1].OrderingKey())
        decreases |active|
      {
        ghost var before := active;
        ghost var key := NextKey(active);
        NextWaits(View());
        DrainOne(old(active), active, result, key);
        ActiveShrinks(before, key);
        var next := Pop();
        result := result + [next.value];
        empty := Empty();
      }
    }
  }
}
