/** What the network guarantees over every run: each message is delivered once, within a bounded time and the
    bandwidth, and the log pairs every SEND with its DELIVER (src/network.py). */
module Delivering {
  import opened Wrappers
  import opened Ordering
  import opened Encoding
  import opened EventLogs
  import opened Schedulers
  import opened Networks

  // ---------- the invariant ----------

  ghost predicate SentOk(net: Net) {
    |net.sent| == net.nextSeq <= UINT64_LIMIT
    && forall m :: m in net.sent ==>
         m.sender != [] && m.receiver != [] && 0 <= m.time < UINT64_LIMIT && Within(net.limit, |m.payload|)
  }

  /** What waits under a key is the message with that sequence number, not earlier than it asked for. */
  ghost predicate QueueOk(net: Net) {
    (forall k :: k in net.sched.active ==>
       k.sequence < |net.sent|
       && var m := net.sent[k.sequence];
          m.time <= k.time < UINT64_LIMIT
          && net.sched.active[k] == Envelope(m.sender, m.receiver, m.payload, k.time, k.sequence))
  }

  /** A sequence number belongs to one message, whose earlier keys carry earlier times. */
  ghost predicate SeenOk(net: Net) {
    (forall j :: j in net.sched.seen ==> j.sequence < |net.sent|)
    && (forall j, k :: j in net.sched.seen && k in net.sched.active && j.sequence == k.sequence ==> j.time <= k.time)
  }

  ghost predicate Waits(active: Active, s: nat) {
    exists k :: k in active && k.sequence == s
  }

  /** Every message waits, was delivered or was lost, and only one of these. */
  ghost predicate FateOk(net: Net) {
    forall s: nat ::
      (s < |net.sent| <==> Waits(net.sched.active, s) || s in net.deliveredSeqs || s in net.lost)
      && !(Waits(net.sched.active, s) && (s in net.deliveredSeqs || s in net.lost))
      && !(s in net.deliveredSeqs && s in net.lost)
  }

  ghost predicate WasDelivered(deliveries: seq<Delivery>, s: nat) {
    exists i :: 0 <= i < |deliveries| && deliveries[i].sequence == s
  }

  ghost predicate NoRepeat(deliveries: seq<Delivery>) {
    forall i, j :: 0 <= i < j < |deliveries| ==> deliveries[i].sequence != deliveries[j].sequence
  }

  ghost predicate InKeyOrder(deliveries: seq<Delivery>) {
    forall i, j :: 0 <= i < j < |deliveries| ==> Before(deliveries[i].OrderingKey(), deliveries[j].OrderingKey())
  }

  /** A delivery of a message that was sent, not before its time and not after the last pop. */
  ghost predicate Honours(net: Net, d: Delivery) {
    d.sequence < |net.sent| && d.size == |net.sent[d.sequence].payload| && net.sent[d.sequence].time <= d.tick
    && net.sched.last.Some? && !Before(net.sched.last.value, d.OrderingKey())
  }

  ghost predicate AllHonour(net: Net, deliveries: seq<Delivery>) {
    forall i :: 0 <= i < |deliveries| ==> Honours(net, deliveries[i])
  }

  ghost predicate DeliveriesOk(net: Net) {
    InKeyOrder(net.deliveries) && NoRepeat(net.deliveries) && AllHonour(net, net.deliveries)
    && forall s: nat :: s in net.deliveredSeqs <==> WasDelivered(net.deliveries, s)
  }

  ghost predicate ContextsOk(net: Net) {
    net.pending == net.sched.active && net.contexts.Keys == net.sched.active.Keys
    && forall k :: k in net.contexts && k.sequence < |net.sent| ==>
         net.contexts[k] == Context(net.sent[k.sequence].height, net.sent[k.sequence].round)
  }

  /** A SEND event is owed for exactly the messages not delivered. */
  ghost predicate OwedOk(net: Net) {
    (forall s: nat :: s in net.sendEvents <==> s < |net.sent| && s !in net.deliveredSeqs)
    && (forall s: nat :: s in net.sendEvents && s < |net.sent| ==> net.sendEvents[s] == InfoOf(net.sent[s]))
  }

  /** The bytes delivered at a tick. */
  ghost function SumAt(deliveries: seq<Delivery>, tick: nat): nat {
    if deliveries == [] then 0
    else
      var d := deliveries[|deliveries| - 1];
      SumAt(deliveries[..|deliveries| - 1], tick) + if d.tick == tick then d.size else 0
  }

  ghost predicate ChargesOk(net: Net) {
    net.limit.Some? ==>
      forall u: nat :: ChargedAt(net.charged, u) == SumAt(net.deliveries, u) <= net.limit.value
  }

  ghost predicate SmallerAt(deliveries: seq<Delivery>, tick: nat, s: nat) {
    exists i :: 0 <= i < |deliveries| && deliveries[i].tick == tick && deliveries[i].sequence < s
  }

  /** In every tick of [from, to) a message with a smaller number than s was delivered. */
  ghost predicate Covered(deliveries: seq<Delivery>, from: int, to: nat, s: nat) {
    forall u: nat :: from <= u < to ==> SmallerAt(deliveries, u, s)
  }

  ghost predicate CoverOk(net: Net) {
    (forall k :: k in net.sched.active && k.sequence < |net.sent| ==>
       Covered(net.deliveries, net.sent[k.sequence].time, k.time, k.sequence))
    && (forall i :: 0 <= i < |net.deliveries| && net.deliveries[i].sequence < |net.sent| ==>
          Covered(net.deliveries, net.sent[net.deliveries[i].sequence].time, net.deliveries[i].tick,
                  net.deliveries[i].sequence))
    && (forall s :: s in net.lost && s < |net.sent| ==>
          Covered(net.deliveries, net.sent[s].time, UINT64_LIMIT, s))
  }

  ghost function LastTick(deliveries: seq<Delivery>): nat {
    if deliveries == [] then 0 else deliveries[|deliveries| - 1].tick
  }

  ghost function SendRecord(m: Message, s: nat, number: nat, time: int): Record {
    Record(number, time, m.sender, SEND, m.height, m.round,
           map["receiver" := Text(m.receiver), "insertion_seq" := Number(s), "payload_size" := Number(|m.payload|)])
  }

  ghost function DeliverRecord(m: Message, s: nat, number: nat, time: int): Record {
    Record(number, time, m.receiver, DELIVER, m.height, m.round,
           map["sender" := Text(m.sender), "insertion_seq" := Number(s), "payload_size" := Number(|m.payload|)])
  }

  /** The two events of a delivery, written after `before` others, the last of them at `last`. */
  ghost function EventPair(m: Message, d: Delivery, before: nat, last: nat): seq<Record> {
    [SendRecord(m, d.sequence, before + 1, Max(m.time, last)), DeliverRecord(m, d.sequence, before + 2, d.tick)]
  }

  ghost predicate Known(deliveries: seq<Delivery>, n: nat) {
    forall i :: 0 <= i < |deliveries| ==> deliveries[i].sequence < n
  }

  ghost function EventsOf(sent: seq<Message>, deliveries: seq<Delivery>): seq<Record>
    requires Known(deliveries, |sent|)
  {
    if deliveries == [] then []
    else
      var earlier, d := deliveries[..|deliveries| - 1], deliveries[|deliveries| - 1];
      EventsOf(sent, earlier) + EventPair(sent[d.sequence], d, 2 * |earlier|, LastTick(earlier))
  }

  ghost predicate LogOk(net: Net) {
    Known(net.deliveries, |net.sent|)
    && net.log == Log(EventsOf(net.sent, net.deliveries), 2 * |net.deliveries|,
                      if net.deliveries == [] then None else Some(LastTick(net.deliveries)), false)
    && net.nextEventNo == 2 * |net.deliveries|
    && net.lastEventTime == LastTick(net.deliveries) <= net.sched.time
  }

  ghost predicate NetOk(net: Net) {
    Live(net) && SentOk(net) && QueueOk(net) && SeenOk(net) && FateOk(net) && DeliveriesOk(net) && ContextsOk(net)
    && OwedOk(net) && ChargesOk(net) && CoverOk(net) && LogOk(net)
  }

  lemma EmptyQueueIsOk(net: Net)
    requires net.sched == IDLE && net.sent == [] && net.pending == map[] && net.contexts == map[]
    requires net.charged == map[]
    requires net.nextSeq == 0 && net.sendEvents == map[]
    ensures Live(net) && SentOk(net) && QueueOk(net) && SeenOk(net) && ContextsOk(net) && OwedOk(net)
  {
  }

  lemma NoHistoryIsOk(net: Net)
    requires net.sched == IDLE && net.sent == [] && net.deliveries == [] && net.lost == {} && net.deliveredSeqs == {}
    ensures FateOk(net) && DeliveriesOk(net) && CoverOk(net)
  {
    assert forall s: nat :: !Waits(net.sched.active, s) && !WasDelivered(net.deliveries, s);
  }

  lemma NoLogIsOk(net: Net)
    requires net.sched == IDLE && net.sent == [] && net.deliveries == [] && net.charged == map[]
    requires net.log == EMPTY_LOG && net.nextEventNo == 0 && net.lastEventTime == 0
    ensures ChargesOk(net) && LogOk(net)
  {
  }

  lemma FreshIsOk(limit: Option<nat>)
    ensures NetOk(FreshNet(limit))
  {
    hide Live, SentOk, QueueOk, SeenOk, FateOk, DeliveriesOk, ContextsOk, OwedOk, ChargesOk, CoverOk, LogOk;
    EmptyQueueIsOk(FreshNet(limit));
    NoHistoryIsOk(FreshNet(limit));
    NoLogIsOk(FreshNet(limit));
  }

  // ---------- send ----------

  lemma WaitsAdds(active: Active, key: Key, e: Envelope, s: nat)
    ensures Waits(active[key := e], s) <==> Waits(active, s) || s == key.sequence
  {
    assert key in active[key := e];
    if Waits(active, s) {
      var k :| k in active && k.sequence == s;
      assert k in active[key := e];
    }
  }

  lemma SubmitForm(net: Net, m: Message)
    requires Submit(net, m).Ok?
    ensures var next := Submit(net, m).value;
            var e := Envelope(m.sender, m.receiver, m.payload, m.time, net.nextSeq);
            next == net.(
              sched := net.sched.(active := net.sched.active[e.OrderingKey() := e],
                                 seen := net.sched.seen + {e.OrderingKey()}),
              pending := net.pending[e.OrderingKey() := e],
              contexts := net.contexts[e.OrderingKey() := Context(m.height, m.round)],
              sendEvents := net.sendEvents[net.nextSeq := InfoOf(m)], nextSeq := net.nextSeq + 1,
              sent := net.sent + [m])
    ensures m.sender != [] && m.receiver != [] && 0 <= m.time < UINT64_LIMIT && net.nextSeq < UINT64_LIMIT
    ensures Within(net.limit, |m.payload|)
  {
  }

  lemma {:induction false} EventsIgnoreLaterSends(sent: seq<Message>, deliveries: seq<Delivery>, m: Message)
    requires Known(deliveries, |sent|)
    ensures Known(deliveries, |sent + [m]|) && EventsOf(sent + [m], deliveries) == EventsOf(sent, deliveries)
  {
    if deliveries != [] {
      EventsIgnoreLaterSends(sent, deliveries[..|deliveries| - 1], m);
    }
  }

  lemma SubmitKeepsSent(net: Net, m: Message)
    requires SentOk(net) && Submit(net, m).Ok?
    ensures SentOk(Submit(net, m).value)
  {
    SubmitForm(net, m);
    hide Submit;
  }

  lemma SubmitKeepsQueue(net: Net, m: Message)
    requires SentOk(net) && QueueOk(net) && Submit(net, m).Ok?
    ensures QueueOk(Submit(net, m).value)
  {
    SubmitForm(net, m);
    hide Submit;
  }

  lemma SubmitKeepsSeen(net: Net, m: Message)
    requires Live(net) && SentOk(net) && SeenOk(net) && Submit(net, m).Ok?
    ensures SeenOk(Submit(net, m).value)
  {
    SubmitForm(net, m);
    assert forall k :: k in net.sched.active ==> k in net.sched.seen;
    hide Submit, Live, SentOk;
    assert |net.sent| == net.nextSeq;
  }

  lemma SubmitKeepsFate(net: Net, m: Message)
    requires SentOk(net) && FateOk(net) && Submit(net, m).Ok?
    ensures FateOk(Submit(net, m).value)
  {
    SubmitForm(net, m);
    var e := Envelope(m.sender, m.receiver, m.payload, m.time, net.nextSeq);
    forall s ensures Waits(Submit(net, m).value.sched.active, s) <==> Waits(net.sched.active, s) || s == net.nextSeq {
      WaitsAdds(net.sched.active, e.OrderingKey(), e, s);
    }
    hide Submit, Waits;
  }

  lemma ContextsGrow(net: Net, next: Net, key: Key, e: Envelope, m: Message)
    requires ContextsOk(net) && QueueOk(net) && key.sequence == |net.sent|
    requires next.sched.active == net.sched.active[key := e] && next.pending == net.pending[key := e]
    requires next.contexts == net.contexts[key := Context(m.height, m.round)] && next.sent == net.sent + [m]
    ensures ContextsOk(next)
  {
    assert forall k :: k in net.contexts ==> k in net.sched.active && k.sequence < |net.sent|;
    hide QueueOk;
  }

  lemma SubmitKeepsContexts(net: Net, m: Message)
    requires SentOk(net) && QueueOk(net) && ContextsOk(net) && Submit(net, m).Ok?
    ensures ContextsOk(Submit(net, m).value)
  {
    SubmitForm(net, m);
    assert |net.sent| == net.nextSeq;
    hide Submit, SentOk, QueueOk, ContextsOk;
    var e := Envelope(m.sender, m.receiver, m.payload, m.time, net.nextSeq);
    ContextsGrow(net, Submit(net, m).value, e.OrderingKey(), e, m);
  }

  lemma SubmitKeepsOwed(net: Net, m: Message)
    requires SentOk(net) && FateOk(net) && OwedOk(net) && Submit(net, m).Ok?
    ensures OwedOk(Submit(net, m).value)
  {
    SubmitForm(net, m);
    assert net.nextSeq !in net.deliveredSeqs;
    hide Submit, FateOk, InfoOf;
  }

  lemma SubmitKeepsDeliveries(net: Net, m: Message)
    requires DeliveriesOk(net) && Submit(net, m).Ok?
    ensures DeliveriesOk(Submit(net, m).value)
  {
    SubmitForm(net, m);
    var next := Submit(net, m).value;
    hide Submit, InKeyOrder, NoRepeat, WasDelivered, Before;
    forall i | 0 <= i < |net.deliveries| ensures Honours(next, net.deliveries[i]) {
      assert Honours(net, net.deliveries[i]);
    }
    hide Honours;
  }

  lemma SubmitKeepsCharges(net: Net, m: Message)
    requires ChargesOk(net) && Submit(net, m).Ok?
    ensures ChargesOk(Submit(net, m).value)
  {
    SubmitForm(net, m);
    hide Submit;
    ChargesIgnoreQueue(net, Submit(net, m).value);
  }

  lemma SubmitKeepsCover(net: Net, m: Message)
    requires SentOk(net) && QueueOk(net) && DeliveriesOk(net) && FateOk(net) && CoverOk(net) && Submit(net, m).Ok?
    ensures CoverOk(Submit(net, m).value)
  {
    SubmitForm(net, m);
    hide Submit;
    assert Covered(net.deliveries, m.time, m.time, net.nextSeq);
    assert forall s :: s in net.lost ==> s < |net.sent|;
    hide Covered, FateOk;
  }

  lemma SubmitKeepsLog(net: Net, m: Message)
    requires LogOk(net) && Submit(net, m).Ok?
    ensures LogOk(Submit(net, m).value)
  {
    SubmitForm(net, m);
    EventsIgnoreLaterSends(net.sent, net.deliveries, m);
    hide Submit, EventsOf;
  }

  lemma SubmitKeepsOk(net: Net, m: Message)
    requires NetOk(net) && Submit(net, m).Ok?
    ensures NetOk(Submit(net, m).value)
  {
    hide Live, SentOk, QueueOk, SeenOk, FateOk, DeliveriesOk, ContextsOk, OwedOk, ChargesOk, CoverOk, LogOk, Submit;
    SubmitKeepsLive(net, m);
    SubmitKeepsSent(net, m);
    SubmitKeepsQueue(net, m);
    SubmitKeepsSeen(net, m);
    SubmitKeepsFate(net, m);
    SubmitKeepsContexts(net, m);
    SubmitKeepsOwed(net, m);
    SubmitKeepsDeliveries(net, m);
    SubmitKeepsCharges(net, m);
    SubmitKeepsCover(net, m);
    SubmitKeepsLog(net, m);
  }

  // ---------- one pop ----------

  ghost function Record2(net: Net, m: Message, d: Delivery): seq<Record> {
    EventPair(m, d, 2 * |net.deliveries|, LastTick(net.deliveries))
  }

  /** The network after message s was charged to the tick and its two events written. */
  ghost function Written(net: Net, s: nat, m: Message, tick: nat): Net {
    net.(
      charged := Charge(net, tick, |m.payload|).charged,
      sendEvents := net.sendEvents - {s}, nextEventNo := net.nextEventNo + 2, lastEventTime := tick,
      log := Log(net.log.records + Record2(net, m, Delivery(s, tick, |m.payload|)), net.log.eventCount + 2,
                 Some(tick), false))
  }

  /** The network after the message under k was delivered. */
  ghost function AfterDelivery(net: Net, k: Key): Net
    requires k.sequence < |net.sent|
  {
    var m := net.sent[k.sequence];
    Written(Popped(net, k), k.sequence, m, k.time).(
      deliveredSeqs := net.deliveredSeqs + {k.sequence},
      deliveries := net.deliveries + [Delivery(k.sequence, k.time, |m.payload|)])
  }

  ghost function Later(k: Key): Key {
    Key(k.time + 1, k.sequence)
  }

  /** The network after the message under k was put off by one tick. */
  ghost function AfterDeferral(net: Net, k: Key): Net
    requires k.sequence < |net.sent|
  {
    var m := net.sent[k.sequence];
    var back := Envelope(m.sender, m.receiver, m.payload, k.time + 1, k.sequence);
    net.(sched := Plain((net.sched.active - {k})[Later(k) := back], net.sched.seen + {Later(k)}, k.time, Some(k)),
         pending := (net.pending - {k})[Later(k) := back],
         contexts := (net.contexts - {k})[Later(k) := Context(m.height, m.round)])
  }

  /** The network after the message under k was lost, its next tick being out of range. */
  ghost function AfterLoss(net: Net, k: Key): Net {
    Popped(net, k).(lost := net.lost + {k.sequence})
  }

  lemma LogSendForm(net: Net, e: Envelope, m: Message)
    requires e.insertionSeq in net.sendEvents && net.sendEvents[e.insertionSeq] == InfoOf(m) && e.payload == m.payload
    requires LogOk(net) && m.time >= 0
    ensures var written := Max(m.time, net.lastEventTime);
            var r := SendRecord(m, e.insertionSeq, net.nextEventNo + 1, written);
            LogSend(net, e) == (net.(
              sendEvents := net.sendEvents - {e.insertionSeq}, nextEventNo := net.nextEventNo + 1,
              lastEventTime := written,
              log := Log(net.log.records + [r], net.log.eventCount + 1, Some(written), false)), None)
  {
    hide EventsOf;
  }

  lemma LogDeliverForm(net: Net, e: Envelope, m: Message, tick: nat)
    requires e == Envelope(m.sender, m.receiver, m.payload, tick, e.insertionSeq)
    requires net.log.eventCount == net.nextEventNo && !net.log.closed
    requires net.log.lastLogicalTime == Some(net.lastEventTime)
    requires 0 <= net.lastEventTime <= tick
    ensures LogDeliver(net, e, Context(m.height, m.round), tick) == (net.(
              nextEventNo := net.nextEventNo + 1, lastEventTime := tick,
              log := Log(net.log.records + [DeliverRecord(m, e.insertionSeq, net.nextEventNo + 1, tick)],
                         net.log.eventCount + 1, Some(tick), false)), None)
  {
  }

  lemma DeliverAtUnfolds(net: Net, e: Envelope, context: Context, tick: nat, begun: Net, done: Net)
    requires LogSend(Charge(net, tick, |e.payload|), e) == (begun, None)
    requires LogDeliver(begun, e, context, tick) == (done, None)
    ensures DeliverAt(net, e, context, tick) == (done, Delivered(e.payload))
  {
    hide LogSend, LogDeliver, Charge;
  }

  lemma ChargeKeepsLog(net: Net, tick: nat, size: nat)
    requires LogOk(net)
    ensures var next := Charge(net, tick, size);
            LogOk(next) && next.lastEventTime == net.lastEventTime && next.sendEvents == net.sendEvents
            && next.nextEventNo == net.nextEventNo && next.log == net.log && next.deliveries == net.deliveries
  {
    hide EventsOf, Known;
  }

  lemma WrittenForm(net: Net, s: nat, m: Message, tick: nat, written: int)
    requires written == Max(m.time, LastTick(net.deliveries)) && net.nextEventNo == 2 * |net.deliveries|
    ensures var first := SendRecord(m, s, net.nextEventNo + 1, written);
            var second := DeliverRecord(m, s, net.nextEventNo + 2, tick);
            Written(net, s, m, tick) == Charge(net, tick, |m.payload|).(
              sendEvents := net.sendEvents - {s}, nextEventNo := net.nextEventNo + 2, lastEventTime := tick,
              log := Log((net.log.records + [first]) + [second], net.log.eventCount + 2, Some(tick), false))
  {
    hide SendRecord, DeliverRecord;
    var a, b := SendRecord(m, s, net.nextEventNo + 1, written), DeliverRecord(m, s, net.nextEventNo + 2, tick);
    assert (net.log.records + [a]) + [b] == net.log.records + [a, b];
  }

  lemma DeliverAtForm(net: Net, e: Envelope, m: Message, tick: nat)
    requires e == Envelope(m.sender, m.receiver, m.payload, tick, e.insertionSeq) && 0 <= m.time <= tick
    requires e.insertionSeq in net.sendEvents && net.sendEvents[e.insertionSeq] == InfoOf(m)
    requires LogOk(net) && net.lastEventTime <= tick
    ensures DeliverAt(net, e, Context(m.height, m.round), tick)
            == (Written(net, e.insertionSeq, m, tick), Delivered(m.payload))
  {
    var charged := Charge(net, tick, |m.payload|);
    ChargeKeepsLog(net, tick, |m.payload|);
    assert net.lastEventTime == LastTick(net.deliveries) && net.nextEventNo == 2 * |net.deliveries|
           && net.log.eventCount == net.nextEventNo;
    hide LogOk, LogSend, LogDeliver, DeliverAt, InfoOf, Charge, Written, SendRecord, DeliverRecord, LastTick;
    LogSendForm(charged, e, m);
    var begun := LogSend(charged, e).0;
    LogDeliverForm(begun, e, m, tick);
    var done := LogDeliver(begun, e, Context(m.height, m.round), tick).0;
    DeliverAtUnfolds(net, e, Context(m.height, m.round), tick, begun, done);
    WrittenForm(net, e.insertionSeq, m, tick, Max(m.time, net.lastEventTime));
  }

  ghost predicate Roomy(net: Net, k: Key)
    requires k.sequence < |net.sent|
  {
    HasRoom(net, k.time, |net.sent[k.sequence].payload|)
  }

  /** What the invariant says about the next envelope. */
  lemma NextFacts(net: Net)
    requires NetOk(net) && net.sched.active != map[]
    ensures var k := NextKey(net.sched.active);
            k.sequence < |net.sent| && k.time < UINT64_LIMIT && Later(k) !in net.sched.seen
            && var m := net.sent[k.sequence];
               net.sched.active[k] == Envelope(m.sender, m.receiver, m.payload, k.time, k.sequence)
               && m.sender != [] && m.receiver != [] && 0 <= m.time <= k.time && Within(net.limit, |m.payload|)
               && ContextAt(net.contexts, k) == Context(m.height, m.round)
    ensures var k := NextKey(net.sched.active);
            k.sequence in net.sendEvents && net.sendEvents[k.sequence] == InfoOf(net.sent[k.sequence])
            && k.sequence !in net.deliveredSeqs && k.sequence !in net.lost && net.lastEventTime <= k.time
  {
    hide Live, DeliveriesOk, ChargesOk, CoverOk, InfoOf;
    TickOfPopped(net);
    hide DeliveryTick, Popped, Fits;
    var k := NextKey(net.sched.active);
    assert Waits(net.sched.active, k.sequence);
    assert net.sent[k.sequence] in net.sent;
    hide EventsOf, Known;
  }

  /** What a deferral needs to know about the envelope under k. */
  ghost predicate Deferrable(net: Net, k: Key) {
    k in net.sched.active && k.sequence < |net.sent| && Later(k) !in net.sched.seen && k.sequence < UINT64_LIMIT
    && var m := net.sent[k.sequence];
       m.sender != [] && m.receiver != []
       && net.sched.active[k] == Envelope(m.sender, m.receiver, m.payload, k.time, k.sequence)
       && ContextAt(net.contexts, k) == Context(m.height, m.round)
  }

  lemma NextIsDeferrable(net: Net)
    requires NetOk(net) && net.sched.active != map[]
    ensures Deferrable(net, NextKey(net.sched.active))
  {
    NextFacts(net);
    SequencesFit(net);
    hide NetOk, ContextAt, Later, IsNext;
  }

  lemma DeferralForm(net: Net, k: Key)
    requires k in net.sched.active && k.sequence < |net.sent| && Deferrable(net, k)
    ensures k.time + 1 < UINT64_LIMIT ==>
              DeferTo(Popped(net, k), net.sched.active[k], ContextAt(net.contexts, k), k.time + 1)
              == (AfterDeferral(net, k), Deferred)
    ensures k.time + 1 >= UINT64_LIMIT ==>
              DeferTo(Popped(net, k), net.sched.active[k], ContextAt(net.contexts, k), k.time + 1)
              == (Popped(net, k), Raised(TimeOutOfRange))
  {
  }

  lemma AttemptSplits(net: Net, e: Envelope, context: Context)
    requires Within(net.limit, |e.payload|)
    requires e.logicalTime <= DeliveryTick(net, e.logicalTime, |e.payload|) <= e.logicalTime + 1
    ensures DeliveryTick(net, e.logicalTime, |e.payload|) == e.logicalTime ==>
              Attempt(net, e, context) == DeliverAt(net, e, context, e.logicalTime)
    ensures DeliveryTick(net, e.logicalTime, |e.payload|) != e.logicalTime ==>
              Attempt(net, e, context) == DeferTo(net, e, context, e.logicalTime + 1)
  {
    hide DeliveryTick, DeferTo, DeliverAt;
  }

  lemma PoppedKeepsRest(net: Net, k: Key)
    ensures var next := Popped(net, k);
            next.limit == net.limit && next.sendEvents == net.sendEvents && next.lastEventTime == net.lastEventTime
  {
  }

  lemma AttemptForm(net: Net)
    requires NetOk(net) && net.sched.active != map[]
    ensures var k := NextKey(net.sched.active);
            k.sequence < |net.sent|
            && var e, context := net.sched.active[k], ContextAt(net.contexts, k);
               Within(net.limit, |e.payload|)
               && (Roomy(net, k) ==>
                      Attempt(Popped(net, k), e, context) == DeliverAt(Popped(net, k), e, context, k.time))
               && (!Roomy(net, k) ==>
                      Attempt(Popped(net, k), e, context) == DeferTo(Popped(net, k), e, context, k.time + 1))
  {
    NextIsLive(net);
    hide *;
    NextFacts(net);
    TickOfPopped(net);
    var k := NextKey(net.sched.active);
    PoppedKeepsRest(net, k);
    AttemptSplits(Popped(net, k), net.sched.active[k], ContextAt(net.contexts, k));
  }

  lemma NextIsLive(net: Net)
    requires NetOk(net)
    ensures Live(net)
  {
    hide Live, SentOk, QueueOk, SeenOk, FateOk, DeliveriesOk, ContextsOk, OwedOk, ChargesOk, CoverOk, LogOk;
  }

  lemma PoppedKeepsLog(net: Net)
    requires NetOk(net) && net.sched.active != map[]
    ensures LogOk(Popped(net, NextKey(net.sched.active)))
  {
    NextFacts(net);
    TickOfPopped(net);
    hide Live, QueueOk, SeenOk, FateOk, DeliveriesOk, ContextsOk, OwedOk, ChargesOk, CoverOk, SentOk;
    hide EventsOf, Known, IsNext, DeliveryTick, Fits, InfoOf;
  }

  lemma DeliveryForm(net: Net)
    requires NetOk(net) && net.sched.active != map[]
    ensures var k := NextKey(net.sched.active);
            k.sequence < |net.sent|
            && var m := net.sent[k.sequence];
               DeliverAt(Popped(net, k), net.sched.active[k], ContextAt(net.contexts, k), k.time)
               == (Written(Popped(net, k), k.sequence, m, k.time), Delivered(m.payload))
  {
    NextFacts(net);
    PoppedKeepsLog(net);
    var k := NextKey(net.sched.active);
    PoppedKeepsRest(net, k);
    hide NetOk, DeliverAt, LogOk, InfoOf, IsNext, ContextAt, Later, Record2, Popped, Written;
    DeliverAtForm(Popped(net, k), net.sched.active[k], net.sent[k.sequence], k.time);
  }

  lemma SettledForms(net: Net, next: Net, k: Key, e: Envelope, m: Message)
    requires e == Envelope(m.sender, m.receiver, m.payload, k.time, k.sequence)
    requires k.sequence < |net.sent| && m == net.sent[k.sequence]
    ensures Settled(Written(Popped(net, k), k.sequence, m, k.time), Delivered(m.payload), e) == AfterDelivery(net, k)
    ensures Settled(next, Deferred, e) == next
    ensures Settled(Popped(net, k), Raised(TimeOutOfRange), e) == AfterLoss(net, k)
  {
    hide Record2, Charge;
  }

  lemma RoomyPop(net: Net)
    requires NetOk(net) && net.sched.active != map[] && Live(net)
    requires NextKey(net.sched.active).sequence < |net.sent| && Roomy(net, NextKey(net.sched.active))
    ensures PopOnce(net) ==
            (AfterDelivery(net, NextKey(net.sched.active)),
             Delivered(net.sent[NextKey(net.sched.active).sequence].payload))
  {
    var k := NextKey(net.sched.active);
    var e, m := net.sched.active[k], net.sent[k.sequence];
    hide *;
    NextFacts(net);
    TickOfPopped(net);
    AttemptForm(net);
    DeliveryForm(net);
    SettledForms(net, net, k, e, m);
    PopOnceUnfolds(net, k, e, Written(Popped(net, k), k.sequence, m, k.time), Delivered(m.payload));
  }

  /** What the attempt comes to when there is no room. */
  lemma FullAttempt(net: Net)
    requires NetOk(net) && net.sched.active != map[] && Live(net)
    requires NextKey(net.sched.active).sequence < |net.sent| && !Roomy(net, NextKey(net.sched.active))
    ensures var k := NextKey(net.sched.active);
            k in net.sched.active && Within(net.limit, |net.sched.active[k].payload|)
            && Attempt(Popped(net, k), net.sched.active[k], ContextAt(net.contexts, k))
               == DeferTo(Popped(net, k), net.sched.active[k], ContextAt(net.contexts, k), k.time + 1)
  {
    hide *;
    NextFacts(net);
    TickOfPopped(net);
    AttemptForm(net);
  }

  lemma DeferringPop(net: Net)
    requires NetOk(net) && net.sched.active != map[] && Live(net)
    requires NextKey(net.sched.active).sequence < |net.sent| && !Roomy(net, NextKey(net.sched.active))
    requires NextKey(net.sched.active).time + 1 < UINT64_LIMIT
    ensures PopOnce(net) == (AfterDeferral(net, NextKey(net.sched.active)), Deferred)
  {
    var k := NextKey(net.sched.active);
    NextIsIn(net);
    FullAttempt(net);
    FullForm(net);
    hide *;
    PopOnceUnfolds(net, k, net.sched.active[k], AfterDeferral(net, k), Deferred);
    SettledDeferral(AfterDeferral(net, k), net.sched.active[k]);
  }

  lemma SettledDeferral(next: Net, e: Envelope)
    ensures Settled(next, Deferred, e) == next
  {
  }

  lemma FullForm(net: Net)
    requires NetOk(net) && net.sched.active != map[]
    requires NextKey(net.sched.active).sequence < |net.sent| && NextKey(net.sched.active) in net.sched.active
    ensures var k := NextKey(net.sched.active);
            k.time + 1 < UINT64_LIMIT ==>
              DeferTo(Popped(net, k), net.sched.active[k], ContextAt(net.contexts, k), k.time + 1)
              == (AfterDeferral(net, k), Deferred)
    ensures var k := NextKey(net.sched.active);
            k.time + 1 >= UINT64_LIMIT ==>
              DeferTo(Popped(net, k), net.sched.active[k], ContextAt(net.contexts, k), k.time + 1)
              == (Popped(net, k), Raised(TimeOutOfRange))
  {
    hide *;
    NextIsDeferrable(net);
    DeferralForm(net, NextKey(net.sched.active));
  }

  lemma NextIsIn(net: Net)
    requires net.sched.active != map[]
    ensures NextKey(net.sched.active) in net.sched.active
  {
  }

  lemma LosingPop(net: Net)
    requires NetOk(net) && net.sched.active != map[] && Live(net)
    requires NextKey(net.sched.active).sequence < |net.sent| && !Roomy(net, NextKey(net.sched.active))
    requires NextKey(net.sched.active).time + 1 >= UINT64_LIMIT
    ensures PopOnce(net) == (AfterLoss(net, NextKey(net.sched.active)), Raised(TimeOutOfRange))
  {
    var k := NextKey(net.sched.active);
    NextIsIn(net);
    NextFacts(net);
    FullAttempt(net);
    FullForm(net);
    hide *;
    PopOnceUnfolds(net, k, net.sched.active[k], Popped(net, k), Raised(TimeOutOfRange));
    SettledForms(net, net, k, net.sched.active[k], net.sent[k.sequence]);
  }

  /** A pop delivers when there is room in the tick, defers by exactly one tick when there is not, and raises only
      when that tick is out of range; no event is ever refused by the log. */
  lemma PopForm(net: Net)
    requires NetOk(net) && net.sched.active != map[]
    ensures Live(net) && NextKey(net.sched.active).sequence < |net.sent|
    ensures var k := NextKey(net.sched.active);
            Roomy(net, k) ==> PopOnce(net) == (AfterDelivery(net, k), Delivered(net.sent[k.sequence].payload))
    ensures var k := NextKey(net.sched.active);
            !Roomy(net, k) && k.time + 1 < UINT64_LIMIT ==> PopOnce(net) == (AfterDeferral(net, k), Deferred)
    ensures var k := NextKey(net.sched.active);
            !Roomy(net, k) && k.time + 1 >= UINT64_LIMIT ==> PopOnce(net) == (AfterLoss(net, k), Raised(TimeOutOfRange))
  {
    NextIsLive(net);
    hide *;
    NextFacts(net);
    if Roomy(net, NextKey(net.sched.active)) {
      RoomyPop(net);
    } else if NextKey(net.sched.active).time + 1 < UINT64_LIMIT {
      DeferringPop(net);
    } else {
      LosingPop(net);
    }
  }

  lemma SequencesFit(net: Net)
    requires NetOk(net)
    ensures |net.sent| <= UINT64_LIMIT
  {
    hide Live, QueueOk, SeenOk, FateOk, DeliveriesOk, ContextsOk, OwedOk, ChargesOk, CoverOk, LogOk;
  }

  // ---------- what every pop keeps ----------

  lemma BeforeIsStrict(a: Key, b: Key, c: Key)
    requires Before(a, b) && !Before(a, c)
    ensures Before(c, b) && !Before(b, c) && c != b
  {
  }

  /** Moving the clock to a later key leaves past deliveries in the past. */
  lemma ClockKeepsDeliveries(net: Net, next: Net, k: Key)
    requires DeliveriesOk(net) && (net.sched.last.Some? ==> Before(net.sched.last.value, k))
    requires next.deliveries == net.deliveries && next.sent == net.sent && next.deliveredSeqs == net.deliveredSeqs
    requires next.sched.last == Some(k)
    ensures DeliveriesOk(next)
  {
    forall i | 0 <= i < |net.deliveries| ensures Honours(next, net.deliveries[i]) {
      assert Honours(net, net.deliveries[i]);
      BeforeIsStrict(net.sched.last.value, k, net.deliveries[i].OrderingKey());
    }
    hide Honours, Before, InKeyOrder, NoRepeat, WasDelivered;
  }

  lemma ClockKeepsLog(net: Net, next: Net)
    requires LogOk(net) && net.sched.time <= next.sched.time && next.deliveries == net.deliveries
    requires next.sent == net.sent
    requires next.log == net.log && next.nextEventNo == net.nextEventNo && next.lastEventTime == net.lastEventTime
    ensures LogOk(next)
  {
    hide EventsOf, Known;
  }

  lemma WaitingKeysAreUnique(net: Net, j: Key, k: Key)
    requires Live(net) && SeenOk(net) && j in net.sched.active && k in net.sched.active && j.sequence == k.sequence
    ensures j == k
  {
    assert j in net.sched.seen && k in net.sched.seen;
    hide Live;
  }

  lemma WaitsWithout(net: Net, k: Key, s: nat)
    requires Live(net) && SeenOk(net) && k in net.sched.active
    ensures Waits(net.sched.active - {k}, s) <==> Waits(net.sched.active, s) && s != k.sequence
  {
    if Waits(net.sched.active, s) && s != k.sequence {
      var j :| j in net.sched.active && j.sequence == s;
      assert j in net.sched.active - {k};
    }
    if Waits(net.sched.active - {k}, s) {
      var j :| j in net.sched.active - {k} && j.sequence == s;
      if s == k.sequence {
        WaitingKeysAreUnique(net, j, k);
      }
    }
    hide Live, SeenOk;
  }

  /** A message waiting under k is neither delivered nor lost, so exactly one fate remains after it is settled. */
  lemma SettlingKeepsFate(net: Net, next: Net, k: Key)
    requires Live(net) && SeenOk(net) && FateOk(net) && k in net.sched.active
    requires next.sched.active == net.sched.active - {k} && next.sent == net.sent
    requires (next.deliveredSeqs == net.deliveredSeqs + {k.sequence} && next.lost == net.lost)
             || (next.deliveredSeqs == net.deliveredSeqs && next.lost == net.lost + {k.sequence})
    ensures FateOk(next)
  {
    assert Waits(net.sched.active, k.sequence);
    forall s ensures Waits(next.sched.active, s) <==> Waits(net.sched.active, s) && s != k.sequence {
      WaitsWithout(net, k, s);
    }
    hide Waits, Live, SeenOk;
  }

  lemma DeferringKeepsFate(net: Net, next: Net, k: Key, back: Envelope)
    requires Live(net) && SeenOk(net) && FateOk(net) && k in net.sched.active
    requires next.sched.active == (net.sched.active - {k})[Later(k) := back] && next.sent == net.sent
    requires next.deliveredSeqs == net.deliveredSeqs && next.lost == net.lost
    ensures FateOk(next)
  {
    assert Waits(net.sched.active, k.sequence);
    forall s ensures Waits(next.sched.active, s) <==> Waits(net.sched.active, s) {
      WaitsWithout(net, k, s);
      WaitsAdds(net.sched.active - {k}, Later(k), back, s);
    }
    hide Waits, Live, SeenOk;
  }

  lemma FewerWaiting(net: Net, next: Net, k: Key)
    requires Live(net) && QueueOk(net) && SeenOk(net) && ContextsOk(net) && k in net.sched.active
    requires next.sched.active == net.sched.active - {k} && next.sched.seen == net.sched.seen && next.sent == net.sent
    requires next.pending == net.pending - {k} && next.contexts == net.contexts - {k}
    ensures QueueOk(next) && SeenOk(next) && ContextsOk(next)
  {
    hide Live;
  }

  lemma OneLaterQueue(net: Net, next: Net, k: Key)
    requires QueueOk(net) && k in net.sched.active && k.sequence < |net.sent| && k.time + 1 < UINT64_LIMIT
    requires next.sched == AfterDeferral(net, k).sched && next.sent == net.sent
    ensures QueueOk(next)
  {
  }

  lemma OneLaterSeen(net: Net, next: Net, k: Key)
    requires Live(net) && SeenOk(net) && k in net.sched.active && k.sequence < |net.sent|
    requires next.sched == AfterDeferral(net, k).sched && next.sent == net.sent
    ensures SeenOk(next)
  {
    forall j | j in net.sched.active && j.sequence == k.sequence ensures j == k {
      WaitingKeysAreUnique(net, j, k);
    }
    assert k in net.sched.seen;
    hide Live;
  }

  lemma OneLaterContexts(net: Net, next: Net, k: Key)
    requires ContextsOk(net) && k in net.sched.active && k.sequence < |net.sent|
    requires next == AfterDeferral(net, k)
    ensures ContextsOk(next)
  {
  }

  // ---------- cover ----------

  lemma SmallerAtAppends(deliveries: seq<Delivery>, d: Delivery, tick: nat, s: nat)
    requires SmallerAt(deliveries, tick, s)
    ensures SmallerAt(deliveries + [d], tick, s)
  {
    var i :| 0 <= i < |deliveries| && deliveries[i].tick == tick && deliveries[i].sequence < s;
    assert (deliveries + [d])[i] == deliveries[i];
  }

  lemma CoveredAppends(deliveries: seq<Delivery>, d: Delivery, from: int, to: nat, s: nat)
    requires Covered(deliveries, from, to, s)
    ensures Covered(deliveries + [d], from, to, s)
  {
    forall u: nat | from <= u < to ensures SmallerAt(deliveries + [d], u, s) {
      SmallerAtAppends(deliveries, d, u, s);
    }
  }

  lemma {:induction false} ChargedMeansDelivered(deliveries: seq<Delivery>, tick: nat)
    requires SumAt(deliveries, tick) > 0
    ensures exists i :: 0 <= i < |deliveries| && deliveries[i].tick == tick
  {
    var last := |deliveries| - 1;
    if deliveries[last].tick != tick {
      ChargedMeansDelivered(deliveries[..last], tick);
      var i :| 0 <= i < last && deliveries[..last][i].tick == tick;
      assert deliveries[i].tick == tick;
    }
  }

  /** A message finds no room only because one with a smaller number was delivered in the same tick. */
  lemma NoRoomMeansSmaller(net: Net)
    requires NetOk(net) && net.sched.active != map[]
    requires NextKey(net.sched.active).sequence < |net.sent| && !Roomy(net, NextKey(net.sched.active))
    ensures SmallerAt(net.deliveries, NextKey(net.sched.active).time, NextKey(net.sched.active).sequence)
  {
    var k := NextKey(net.sched.active);
    NextFacts(net);
    assert SumAt(net.deliveries, k.time) > 0;
    ChargedMeansDelivered(net.deliveries, k.time);
    var i :| 0 <= i < |net.deliveries| && net.deliveries[i].tick == k.time;
    assert Honours(net, net.deliveries[i]);
    hide SentOk, QueueOk, SeenOk, FateOk, ContextsOk, OwedOk, ChargesOk, CoverOk, LogOk, SumAt;
    BeforeIsStrict(net.sched.last.value, k, net.deliveries[i].OrderingKey());
  }

  ghost predicate DeliveredBefore(deliveries: seq<Delivery>, s: nat, tick: nat) {
    exists i :: 0 <= i < |deliveries| && deliveries[i].sequence == s && deliveries[i].tick < tick
  }

  lemma {:induction false} Witnesses(deliveries: seq<Delivery>, from: nat, end: nat, s: nat) returns (w: set<nat>)
    requires from <= end && Covered(deliveries, from, end, s) && NoRepeat(deliveries)
    ensures |w| == end - from
    ensures forall x :: x in w ==> x < s
    ensures forall x :: x in w ==> DeliveredBefore(deliveries, x, end)
    decreases end
  {
    if from == end {
      w := {};
    } else {
      var earlier := Witnesses(deliveries, from, end - 1, s);
      assert SmallerAt(deliveries, end - 1, s);
      var i :| 0 <= i < |deliveries| && deliveries[i].tick == end - 1 && deliveries[i].sequence < s;
      assert DeliveredBefore(deliveries, deliveries[i].sequence, end);
      assert deliveries[i].sequence !in earlier;
      w := earlier + {deliveries[i].sequence};
    }
  }

  lemma {:induction false} BelowSize(w: set<nat>, s: nat)
    requires forall x :: x in w ==> x < s
    ensures |w| <= s
  {
    if s == 0 {
      assert w == {};
    } else {
      BelowSize(w - {s - 1}, s - 1);
    }
  }

  /** Each tick of waiting cost a different smaller number, so the wait is at most s. */
  lemma CoverBoundsWait(deliveries: seq<Delivery>, from: nat, to: nat, s: nat)
    requires from <= to && Covered(deliveries, from, to, s) && NoRepeat(deliveries)
    ensures to <= from + s
  {
    var w := Witnesses(deliveries, from, to, s);
    BelowSize(w, s);
  }

  // ---------- a delivery ----------

  lemma WasDeliveredAppends(deliveries: seq<Delivery>, d: Delivery, s: nat)
    ensures WasDelivered(deliveries + [d], s) <==> WasDelivered(deliveries, s) || s == d.sequence
  {
    assert (deliveries + [d])[|deliveries|] == d;
    if WasDelivered(deliveries, s) {
      var i :| 0 <= i < |deliveries| && deliveries[i].sequence == s;
      assert (deliveries + [d])[i] == deliveries[i];
    }
  }

  lemma DeliveringKeepsOrder(net: Net, k: Key, size: nat)
    requires DeliveriesOk(net) && (net.sched.last.Some? ==> Before(net.sched.last.value, k))
    ensures InKeyOrder(net.deliveries + [Delivery(k.sequence, k.time, size)])
  {
    var next := net.deliveries + [Delivery(k.sequence, k.time, size)];
    forall i | 0 <= i < |net.deliveries| ensures Before(net.deliveries[i].OrderingKey(), k) {
      assert Honours(net, net.deliveries[i]);
      BeforeIsStrict(net.sched.last.value, k, net.deliveries[i].OrderingKey());
    }
    assert next[|net.deliveries|].OrderingKey() == k;
    hide Before;
  }

  lemma DeliveringKeepsNoRepeat(deliveries: seq<Delivery>, d: Delivery)
    requires NoRepeat(deliveries) && !WasDelivered(deliveries, d.sequence)
    ensures NoRepeat(deliveries + [d])
  {
  }

  lemma DeliveringKeepsDeliveries(net: Net, next: Net, k: Key)
    requires DeliveriesOk(net) && (net.sched.last.Some? ==> Before(net.sched.last.value, k))
    requires k.sequence < |net.sent| && net.sent[k.sequence].time <= k.time && k.sequence !in net.deliveredSeqs
    requires next.sent == net.sent && next.deliveredSeqs == net.deliveredSeqs + {k.sequence}
    requires next.deliveries == net.deliveries + [Delivery(k.sequence, k.time, |net.sent[k.sequence].payload|)]
    requires next.sched.last == Some(k)
    ensures DeliveriesOk(next)
  {
    var d := Delivery(k.sequence, k.time, |net.sent[k.sequence].payload|);
    DeliveringKeepsOrder(net, k, d.size);
    DeliveringKeepsNoRepeat(net.deliveries, d);
    forall s ensures WasDelivered(next.deliveries, s) <==> WasDelivered(net.deliveries, s) || s == d.sequence {
      WasDeliveredAppends(net.deliveries, d, s);
    }
    forall i | 0 <= i < |next.deliveries| ensures Honours(next, next.deliveries[i]) {
      if i < |net.deliveries| {
        assert Honours(net, net.deliveries[i]);
        BeforeIsStrict(net.sched.last.value, k, net.deliveries[i].OrderingKey());
      } else {
        NotBeforeItself(k);
      }
    }
    hide Honours, Before, InKeyOrder, NoRepeat, WasDelivered;
  }

  lemma NotBeforeItself(k: Key)
    ensures !Before(k, k)
  {
  }

  lemma DeliveringKeepsOwed(net: Net, next: Net, k: Key)
    requires OwedOk(net) && next.sent == net.sent && next.sendEvents == net.sendEvents - {k.sequence}
    requires next.deliveredSeqs == net.deliveredSeqs + {k.sequence}
    ensures OwedOk(next)
  {
    hide InfoOf;
  }

  lemma SumAppends(deliveries: seq<Delivery>, d: Delivery, tick: nat)
    ensures SumAt(deliveries + [d], tick) == SumAt(deliveries, tick) + if d.tick == tick then d.size else 0
  {
    assert (deliveries + [d])[..|deliveries|] == deliveries;
  }

  lemma DeliveringKeepsCharges(net: Net, next: Net, d: Delivery)
    requires ChargesOk(net) && HasRoom(net, d.tick, d.size) && next.limit == net.limit
    requires next.charged == Charge(net, d.tick, d.size).charged && next.deliveries == net.deliveries + [d]
    ensures ChargesOk(next)
  {
    forall u: nat ensures SumAt(next.deliveries, u) == SumAt(net.deliveries, u) + if d.tick == u then d.size else 0 {
      SumAppends(net.deliveries, d, u);
    }
    hide SumAt;
  }

  lemma DeliveringKeepsCover(net: Net, next: Net, k: Key, d: Delivery)
    requires CoverOk(net) && k in net.sched.active && k.sequence < |net.sent|
    requires d == Delivery(k.sequence, k.time, d.size)
    requires next.sched.active == net.sched.active - {k} && next.sent == net.sent && next.lost == net.lost
    requires next.deliveries == net.deliveries + [d]
    ensures CoverOk(next)
  {
    forall from, end: nat, s | Covered(net.deliveries, from, end, s) ensures Covered(next.deliveries, from, end, s) {
      CoveredAppends(net.deliveries, d, from, end, s);
    }
    hide Covered;
    assert forall i :: 0 <= i < |net.deliveries| ==> next.deliveries[i] == net.deliveries[i];
    assert next.deliveries[|net.deliveries|] == d;
  }

  lemma DeliveringKeepsLog(net: Net, next: Net, k: Key)
    requires LogOk(net) && k.sequence < |net.sent| && next.sent == net.sent && next.sched.time == k.time
    requires var d := Delivery(k.sequence, k.time, |net.sent[k.sequence].payload|);
             next.deliveries == net.deliveries + [d] && next.nextEventNo == net.nextEventNo + 2
             && next.lastEventTime == k.time
             && next.log == Log(net.log.records + Record2(net, net.sent[k.sequence], d), net.log.eventCount + 2,
                                Some(k.time), false)
    ensures LogOk(next)
  {
    var d := Delivery(k.sequence, k.time, |net.sent[k.sequence].payload|);
    assert next.deliveries[..|net.deliveries|] == net.deliveries && next.deliveries[|net.deliveries|] == d;
    assert Known(next.deliveries, |net.sent|);
    hide Known, EventPair;
  }

  // ---------- the invariant is kept ----------

  lemma OkParts(net: Net)
    requires NetOk(net)
    ensures Live(net) && SentOk(net) && QueueOk(net) && SeenOk(net) && FateOk(net) && DeliveriesOk(net)
            && ContextsOk(net) && OwedOk(net) && ChargesOk(net) && CoverOk(net) && LogOk(net)
  {
    hide Live, SentOk, QueueOk, SeenOk, FateOk, DeliveriesOk, ContextsOk, OwedOk, ChargesOk, CoverOk, LogOk;
  }

  lemma PartsAreOk(net: Net)
    requires Live(net) && SentOk(net) && QueueOk(net) && SeenOk(net) && FateOk(net) && DeliveriesOk(net)
             && ContextsOk(net) && OwedOk(net) && ChargesOk(net) && CoverOk(net) && LogOk(net)
    ensures NetOk(net)
  {
    hide Live, SentOk, QueueOk, SeenOk, FateOk, DeliveriesOk, ContextsOk, OwedOk, ChargesOk, CoverOk, LogOk;
  }

  lemma SentIgnoresQueue(net: Net, next: Net)
    requires SentOk(net) && next.sent == net.sent && next.nextSeq == net.nextSeq && next.limit == net.limit
    ensures SentOk(next)
  {
  }

  lemma AfterDeliveryFields(net: Net, k: Key)
    requires k.sequence < |net.sent|
    ensures var next := AfterDelivery(net, k);
            var m := net.sent[k.sequence];
            var d := Delivery(k.sequence, k.time, |m.payload|);
            next.limit == net.limit && next.nextSeq == net.nextSeq && next.sent == net.sent && next.lost == net.lost
            && next.sched.active == net.sched.active - {k} && next.sched.seen == net.sched.seen
            && next.sched.time == k.time && next.sched.last == Some(k)
            && next.pending == net.pending - {k} && next.contexts == net.contexts - {k}
            && next.sendEvents == net.sendEvents - {k.sequence}
            && next.deliveredSeqs == net.deliveredSeqs + {k.sequence}
            && next.deliveries == net.deliveries + [d] && next.charged == Charge(net, d.tick, d.size).charged
            && next.nextEventNo == net.nextEventNo + 2 && next.lastEventTime == k.time
            && next.log == Log(net.log.records + Record2(net, m, d), net.log.eventCount + 2, Some(k.time), false)
  {
    hide EventPair, LastTick;
  }

  lemma DeliveryKeepsOk(net: Net)
    requires NetOk(net) && net.sched.active != map[] && NextKey(net.sched.active).sequence < |net.sent|
    requires Roomy(net, NextKey(net.sched.active)) && Live(AfterDelivery(net, NextKey(net.sched.active)))
    ensures NetOk(AfterDelivery(net, NextKey(net.sched.active)))
  {
    var k := NextKey(net.sched.active);
    var next := AfterDelivery(net, k);
    var d := Delivery(k.sequence, k.time, |net.sent[k.sequence].payload|);
    assert HasRoom(net, d.tick, d.size);
    hide *;
    OkParts(net);
    NextFacts(net);
    NextIsLater(net);
    AfterDeliveryFields(net, k);
    SentIgnoresQueue(net, next);
    FewerWaiting(net, next, k);
    SettlingKeepsFate(net, next, k);
    DeliveringKeepsDeliveries(net, next, k);
    DeliveringKeepsOwed(net, next, k);
    DeliveringKeepsCharges(net, next, d);
    DeliveringKeepsCover(net, next, k, d);
    DeliveringKeepsLog(net, next, k);
    PartsAreOk(next);
  }

  lemma NextIsLater(net: Net)
    requires Live(net) && net.sched.active != map[]
    ensures var k := NextKey(net.sched.active);
            k in net.sched.active && net.sched.time <= k.time
            && (net.sched.last.Some? ==> Before(net.sched.last.value, k))
  {
  }

  lemma DeferralKeepsCover(net: Net, next: Net, k: Key)
    requires CoverOk(net) && k in net.sched.active && k.sequence < |net.sent|
    requires SmallerAt(net.deliveries, k.time, k.sequence)
    requires next == AfterDeferral(net, k)
    ensures CoverOk(next)
  {
    assert Covered(net.deliveries, net.sent[k.sequence].time, k.time, k.sequence);
    assert Covered(net.deliveries, net.sent[k.sequence].time, k.time + 1, k.sequence);
    hide Covered;
  }

  lemma LossKeepsCover(net: Net, next: Net, k: Key)
    requires CoverOk(net) && k in net.sched.active && k.sequence < |net.sent|
    requires SmallerAt(net.deliveries, k.time, k.sequence) && k.time + 1 == UINT64_LIMIT
    requires next == AfterLoss(net, k)
    ensures CoverOk(next)
  {
    assert Covered(net.deliveries, net.sent[k.sequence].time, k.time, k.sequence);
    assert Covered(net.deliveries, net.sent[k.sequence].time, UINT64_LIMIT, k.sequence);
    hide Covered;
  }

  lemma OwedIgnoresQueue(net: Net, next: Net)
    requires OwedOk(net) && next.sent == net.sent && next.sendEvents == net.sendEvents
    requires next.deliveredSeqs == net.deliveredSeqs
    ensures OwedOk(next)
  {
    hide InfoOf;
  }

  lemma AfterDeferralFields(net: Net, k: Key)
    requires k.sequence < |net.sent|
    ensures var next := AfterDeferral(net, k);
            next.limit == net.limit && next.nextSeq == net.nextSeq && next.sent == net.sent && next.lost == net.lost
            && Later(k) in next.sched.active && next.sched.last == Some(k) && next.sched.time == k.time
            && next.sched.active == (net.sched.active - {k})[Later(k) := next.sched.active[Later(k)]]
            && next.sendEvents == net.sendEvents && next.deliveredSeqs == net.deliveredSeqs
            && next.deliveries == net.deliveries && next.charged == net.charged
            && next.nextEventNo == net.nextEventNo && next.lastEventTime == net.lastEventTime && next.log == net.log
  {
  }

  lemma DeferralKeepsOk(net: Net)
    requires NetOk(net) && net.sched.active != map[] && NextKey(net.sched.active).sequence < |net.sent|
    requires !Roomy(net, NextKey(net.sched.active)) && NextKey(net.sched.active).time + 1 < UINT64_LIMIT
    requires Live(AfterDeferral(net, NextKey(net.sched.active)))
    ensures NetOk(AfterDeferral(net, NextKey(net.sched.active)))
  {
    var k := NextKey(net.sched.active);
    var next := AfterDeferral(net, k);
    hide *;
    OkParts(net);
    NoRoomMeansSmaller(net);
    NextIsLater(net);
    AfterDeferralFields(net, k);
    SentIgnoresQueue(net, next);
    OneLaterQueue(net, next, k);
    OneLaterSeen(net, next, k);
    OneLaterContexts(net, next, k);
    DeferringKeepsFate(net, next, k, next.sched.active[Later(k)]);
    ClockKeepsDeliveries(net, next, k);
    OwedIgnoresQueue(net, next);
    ChargesIgnoreQueue(net, next);
    DeferralKeepsCover(net, next, k);
    ClockKeepsLog(net, next);
    PartsAreOk(next);
  }

  lemma ChargesIgnoreQueue(net: Net, next: Net)
    requires ChargesOk(net) && next.limit == net.limit && next.charged == net.charged
    requires next.deliveries == net.deliveries
    ensures ChargesOk(next)
  {
    hide SumAt;
  }

  lemma AfterLossFields(net: Net, k: Key)
    ensures var next := AfterLoss(net, k);
            next.limit == net.limit && next.nextSeq == net.nextSeq && next.sent == net.sent
            && next.lost == net.lost + {k.sequence}
            && next.sched.active == net.sched.active - {k} && next.sched.seen == net.sched.seen
            && next.sched.time == k.time && next.sched.last == Some(k)
            && next.pending == net.pending - {k} && next.contexts == net.contexts - {k}
            && next.sendEvents == net.sendEvents && next.deliveredSeqs == net.deliveredSeqs
            && next.deliveries == net.deliveries && next.charged == net.charged
            && next.nextEventNo == net.nextEventNo && next.lastEventTime == net.lastEventTime && next.log == net.log
  {
  }

  lemma LossKeepsOk(net: Net)
    requires NetOk(net) && net.sched.active != map[] && NextKey(net.sched.active).sequence < |net.sent|
    requires !Roomy(net, NextKey(net.sched.active)) && NextKey(net.sched.active).time + 1 >= UINT64_LIMIT
    requires Live(AfterLoss(net, NextKey(net.sched.active)))
    ensures NetOk(AfterLoss(net, NextKey(net.sched.active)))
  {
    var k := NextKey(net.sched.active);
    var next := AfterLoss(net, k);
    hide *;
    OkParts(net);
    NextFacts(net);
    NoRoomMeansSmaller(net);
    NextIsLater(net);
    AfterLossFields(net, k);
    SentIgnoresQueue(net, next);
    FewerWaiting(net, next, k);
    SettlingKeepsFate(net, next, k);
    ClockKeepsDeliveries(net, next, k);
    OwedIgnoresQueue(net, next);
    ChargesIgnoreQueue(net, next);
    LossKeepsCover(net, next, k);
    ClockKeepsLog(net, next);
    PartsAreOk(next);
  }

  lemma PopOnceKeepsOk(net: Net)
    requires NetOk(net) && net.sched.active != map[]
    ensures Live(net) && NetOk(PopOnce(net).0)
  {
    NextIsLive(net);
    hide *;
    PopForm(net);
    PopOnceKeepsLive(net);
    var k := NextKey(net.sched.active);
    if Roomy(net, k) {
      DeliveryKeepsOk(net);
    } else if k.time + 1 < UINT64_LIMIT {
      DeferralKeepsOk(net);
    } else {
      LossKeepsOk(net);
    }
  }

  // ---------- runs ----------

  ghost predicate Continues(net: Net, next: Net) {
    next.limit == net.limit && net.sent <= next.sent && net.deliveries <= next.deliveries && net.lost <= next.lost
  }

  /** Exactly one delivery more, with the payload that was sent under its number. */
  ghost predicate DeliveredOne(net: Net, next: Net, payload: Bytes) {
    |next.deliveries| == |net.deliveries| + 1 && net.deliveries <= next.deliveries
    && next.deliveries[|net.deliveries|].sequence < |net.sent|
    && payload == net.sent[next.deliveries[|net.deliveries|].sequence].payload
  }

  lemma AfterFormsContinue(net: Net, k: Key)
    requires k.sequence < |net.sent|
    ensures Continues(net, AfterDelivery(net, k)) && AfterDelivery(net, k).sent == net.sent
    ensures AfterDelivery(net, k).lost == net.lost
    ensures DeliveredOne(net, AfterDelivery(net, k), net.sent[k.sequence].payload)
    ensures Continues(net, AfterDeferral(net, k)) && AfterDeferral(net, k).sent == net.sent
    ensures AfterDeferral(net, k).deliveries == net.deliveries && AfterDeferral(net, k).lost == net.lost
    ensures Continues(net, AfterLoss(net, k)) && AfterLoss(net, k).sent == net.sent
    ensures AfterLoss(net, k).deliveries == net.deliveries && AfterLoss(net, k).lost != {}
  {
    AfterDeliveryFields(net, k);
    AfterDeferralFields(net, k);
    AfterLossFields(net, k);
    assert k.sequence in AfterLoss(net, k).lost;
    hide AfterDelivery, AfterDeferral, AfterLoss;
  }

  /** What `run_next` may do: deliver one message, find nothing, or raise because a time is out of range. */
  ghost predicate Stepped(net: Net, next: Net, outcome: Outcome) {
    Continues(net, next) && next.sent == net.sent
    && match outcome
       case Delivered(payload) => DeliveredOne(net, next, payload) && next.lost == net.lost
       case Raised(error) => error == TimeOutOfRange && next.deliveries == net.deliveries && next.lost != {}
       case Deferred => next.deliveries == net.deliveries && next.lost == net.lost
       case Idle => next == net
  }

  lemma SteppedForms(net: Net, k: Key)
    requires k.sequence < |net.sent|
    ensures Stepped(net, AfterDelivery(net, k), Delivered(net.sent[k.sequence].payload))
    ensures Stepped(net, AfterDeferral(net, k), Deferred)
    ensures Stepped(net, AfterLoss(net, k), Raised(TimeOutOfRange))
  {
    hide AfterDelivery, AfterDeferral, AfterLoss, Continues, DeliveredOne;
    AfterFormsContinue(net, k);
  }

  /** A pop never loses or alters what happened, and only a time out of range can raise. */
  lemma PopOnceSteps(net: Net)
    requires NetOk(net) && net.sched.active != map[] && Live(net)
    ensures Stepped(net, PopOnce(net).0, PopOnce(net).1) && !PopOnce(net).1.Idle?
  {
    hide *;
    PopForm(net);
    SteppedForms(net, NextKey(net.sched.active));
  }

  lemma SteppedAfterDeferral(net: Net, mid: Net, next: Net, outcome: Outcome)
    requires Stepped(net, mid, Deferred) && Stepped(mid, next, outcome) && !outcome.Idle?
    ensures Stepped(net, next, outcome)
  {
  }

  lemma DeliverNextUnfolds(net: Net)
    requires Live(net) && net.sched.active != map[]
    ensures Live(PopOnce(net).0) && !PopOnce(net).1.Idle?
    ensures PopOnce(net).1.Deferred? ==>
              |Due(PopOnce(net).0.sched)| < |Due(net.sched)| && DeliverNext(net) == DeliverNext(PopOnce(net).0)
    ensures PopOnce(net).1.Deferred? ==> PopOnce(net).0.sched.active != map[]
    ensures !PopOnce(net).1.Deferred? ==> DeliverNext(net) == PopOnce(net)
  {
    PopOnceMoves(net);
    PopOnceKeepsLive(net);
    PopOnceProgresses(net);
    hide PopOnce, Live, Due;
  }

  lemma {:induction false} DeliverNextKeepsOk(net: Net)
    requires NetOk(net) && Live(net)
    ensures NetOk(DeliverNext(net).0) && Stepped(net, DeliverNext(net).0, DeliverNext(net).1)
    ensures net.sched.active != map[] ==> !DeliverNext(net).1.Idle?
    decreases |Due(net.sched)|
  {
    if net.sched.active != map[] {
      hide *;
      DeliverNextUnfolds(net);
      PopOnceKeepsOk(net);
      PopOnceSteps(net);
      if PopOnce(net).1.Deferred? {
        DeliverNextKeepsOk(PopOnce(net).0);
        SteppedAfterDeferral(net, PopOnce(net).0, DeliverNext(net).0, DeliverNext(net).1);
      }
    } else {
      NothingHappens(net);
    }
  }

  lemma NothingHappens(net: Net)
    ensures Stepped(net, net, Idle)
  {
  }

  ghost function PayloadsOf(sent: seq<Message>, deliveries: seq<Delivery>): seq<Bytes>
    requires Known(deliveries, |sent|)
  {
    seq(|deliveries|, i requires 0 <= i < |deliveries| => sent[deliveries[i].sequence].payload)
  }

  /** What `run` may do: return the payloads of the new deliveries in order, leaving nothing waiting, or raise. */
  ghost predicate Emptied(net: Net, next: Net, collected: seq<Bytes>, result: Result<seq<Bytes>, NetError>) {
    Continues(net, next) && next.sent == net.sent
    && match result
       case Ok(payloads) =>
         next.sched.active == map[] && next.lost == net.lost
         && Known(next.deliveries[|net.deliveries|..], |net.sent|)
         && payloads == collected + PayloadsOf(net.sent, next.deliveries[|net.deliveries|..])
       case Err(error) => error == TimeOutOfRange && next.lost != {}
  }

  lemma DrainedAfterDelivery(
    net: Net, mid: Net, next: Net, payload: Bytes, collected: seq<Bytes>, result: Result<seq<Bytes>, NetError>)
    requires Stepped(net, mid, Delivered(payload)) && Emptied(mid, next, collected + [payload], result)
    ensures Emptied(net, next, collected, result)
  {
    if result.Ok? {
      PayloadsSplit(net, mid, next, payload, collected);
    }
  }

  lemma NothingToDrain(net: Net, collected: seq<Bytes>)
    requires net.sched.active == map[]
    ensures Emptied(net, net, collected, Ok(collected))
  {
    assert PayloadsOf(net.sent, net.deliveries[|net.deliveries|..]) == [];
  }

  lemma RaisedDrain(net: Net, next: Net, error: NetError, collected: seq<Bytes>)
    requires Stepped(net, next, Raised(error))
    ensures Emptied(net, next, collected, Err(error))
  {
  }

  lemma {:induction false} DrainKeepsOk(net: Net, collected: seq<Bytes>)
    requires NetOk(net) && Live(net)
    ensures NetOk(Drain(net, collected).0) && Emptied(net, Drain(net, collected).0, collected, Drain(net, collected).1)
    decreases |net.sched.active|
  {
    if net.sched.active == map[] {
      NothingToDrain(net, collected);
    } else {
      hide NetOk, Live, DeliverNext, Emptied, Stepped;
      DeliverNextProgresses(net);
      DeliverNextKeepsOk(net);
      var (mid, outcome) := DeliverNext(net);
      if outcome.Delivered? {
        DrainKeepsOk(mid, collected + [outcome.payload]);
        DrainedAfterDelivery(net, mid, Drain(net, collected).0, outcome.payload, collected, Drain(net, collected).1);
      } else {
        RaisedDrain(net, mid, outcome.error, collected);
      }
    }
  }

  lemma PayloadsSplit(net: Net, mid: Net, next: Net, payload: Bytes, collected: seq<Bytes>)
    requires DeliveredOne(net, mid, payload) && mid.deliveries <= next.deliveries
    requires Known(next.deliveries[|mid.deliveries|..], |net.sent|)
    ensures Known(next.deliveries[|net.deliveries|..], |net.sent|)
    ensures (collected + [payload]) + PayloadsOf(net.sent, next.deliveries[|mid.deliveries|..])
            == collected + PayloadsOf(net.sent, next.deliveries[|net.deliveries|..])
  {
    var later, all := next.deliveries[|mid.deliveries|..], next.deliveries[|net.deliveries|..];
    assert all == [mid.deliveries[|net.deliveries|]] + later;
    assert PayloadsOf(net.sent, all) == [payload] + PayloadsOf(net.sent, later);
  }

  datatype Action = DoSend(message: Message) | DoRunNext | DoRun

  ghost function Act(net: Net, action: Action): Net
    requires Live(net)
  {
    match action
    case DoSend(m) => var sent := Submit(net, m); if sent.Ok? then sent.value else net
    case DoRunNext => DeliverNext(net).0
    case DoRun => Drain(net, []).0
  }

  /** The networks reached by sends, `run_next` and `run` in any order, accepted or refused, raising or not. */
  ghost predicate Reaches(net: Net, actions: seq<Action>, end: Net)
    decreases |actions|
  {
    if actions == [] then end == net
    else Live(net) && Reaches(Act(net, actions[0]), actions[1..], end)
  }

  lemma SubmitContinues(net: Net, m: Message)
    requires Submit(net, m).Ok?
    ensures Continues(net, Submit(net, m).value)
  {
    SubmitForm(net, m);
    hide Submit;
  }

  lemma StepsContinue(net: Net, next: Net, outcome: Outcome)
    requires Stepped(net, next, outcome)
    ensures Continues(net, next)
  {
  }

  lemma DrainsContinue(net: Net, next: Net, result: Result<seq<Bytes>, NetError>)
    requires Emptied(net, next, [], result)
    ensures Continues(net, next)
  {
  }

  lemma StaysPut(net: Net)
    ensures Continues(net, net)
  {
  }

  lemma ActKeepsOk(net: Net, action: Action)
    requires NetOk(net) && Live(net)
    ensures NetOk(Act(net, action)) && Continues(net, Act(net, action))
  {
    hide NetOk, Live, Submit, DeliverNext, Drain, Continues, Stepped, Emptied;
    match action {
      case DoSend(m) =>
        StaysPut(net);
        if Submit(net, m).Ok? {
          SubmitKeepsOk(net, m);
          SubmitContinues(net, m);
        }
      case DoRunNext =>
        DeliverNextKeepsOk(net);
        StepsContinue(net, DeliverNext(net).0, DeliverNext(net).1);
      case DoRun =>
        DrainKeepsOk(net, []);
        DrainsContinue(net, Drain(net, []).0, Drain(net, []).1);
    }
  }

  lemma {:induction false} EveryRunIsOk(net: Net, actions: seq<Action>, end: Net)
    requires NetOk(net) && Reaches(net, actions, end)
    ensures NetOk(end) && Continues(net, end)
    decreases |actions|
  {
    if actions != [] {
      ActKeepsOk(net, actions[0]);
      hide NetOk, Act;
      EveryRunIsOk(Act(net, actions[0]), actions[1..], end);
    }
  }

  /** No run gets stuck: from any reached network every action is defined. */
  lemma ReachedIsLive(limit: Option<nat>, actions: seq<Action>, end: Net)
    requires Reaches(FreshNet(limit), actions, end)
    ensures NetOk(end) && Live(end) && end.limit == limit
  {
    FreshIsOk(limit);
    EveryRunIsOk(FreshNet(limit), actions, end);
    OkParts(end);
    hide NetOk;
  }

  // ---------- exactly what is accepted, and what is put off ----------

  /** The message fits into a tick, names both ends, and asks for a tick the clock has not passed. */
  ghost predicate Sendable(net: Net, m: Message) {
    (net.limit.Some? ==> |m.payload| <= net.limit.value) && m.sender != [] && m.receiver != []
    && net.sched.time <= m.time < 0x1_0000_0000_0000_0000 && |net.sent| < 0x1_0000_0000_0000_0000
  }

  lemma FreshKeyIsAccepted(net: Net, e: Envelope)
    requires NetOk(net) && e.insertionSeq == |net.sent|
    ensures Accept(net.sched, e).Ok? <==> net.sched.time <= e.logicalTime
  {
    OkParts(net);
    hide NetOk, SentOk, QueueOk, FateOk, DeliveriesOk, ContextsOk, OwedOk, ChargesOk, CoverOk, LogOk;
    assert e.OrderingKey().sequence == |net.sent|;
    assert e.OrderingKey() !in net.sched.seen;
    assert net.sched.last.Some? ==> net.sched.last.value in net.sched.seen;
  }

  /** In every reached network a message is accepted exactly when it is sendable: then it is the next one sent, and
      waits for the tick it asked for. Otherwise nothing changes. */
  lemma SentExactlyWhen(limit: Option<nat>, actions: seq<Action>, net: Net, m: Message)
    requires Reaches(FreshNet(limit), actions, net)
    ensures Live(net)
    ensures Sendable(net, m) ==>
              var key := Key(m.time, |net.sent|);
              Act(net, DoSend(m)).sent == net.sent + [m]
              && Act(net, DoSend(m)).sched.active
                 == net.sched.active[key := Envelope(m.sender, m.receiver, m.payload, m.time, |net.sent|)]
    ensures !Sendable(net, m) ==> Act(net, DoSend(m)) == net
  {
    ReachedIsLive(limit, actions, net);
    OkParts(net);
    assert net.nextSeq == |net.sent|;
    var made := MakeEnvelope(m.sender, m.receiver, m.payload, m.time, net.nextSeq);
    if made.Ok? {
      FreshKeyIsAccepted(net, made.value);
    }
    if Submit(net, m).Ok? {
      SubmitForm(net, m);
    }
    hide Reaches, NetOk, Live, SentOk, QueueOk, SeenOk, FateOk, DeliveriesOk, ContextsOk, OwedOk, ChargesOk, CoverOk;
    hide LogOk, Accept;
  }

  lemma RefusedInPast(p: Plain, e: Envelope)
    ensures e.logicalTime < p.time ==> Accept(p, e) == Err(TimeInPast)
  {
  }

  /** Why a message is refused in a reached network: the first of its faults, in this order. */
  lemma SendRefusedBecause(limit: Option<nat>, actions: seq<Action>, net: Net, m: Message)
    requires Reaches(FreshNet(limit), actions, net) && Submit(net, m).Err?
    ensures var why := Submit(net, m).error;
            var tooLarge := net.limit.Some? && |m.payload| > net.limit.value;
            var inRange := 0 <= m.time < 0x1_0000_0000_0000_0000;
            (why.PayloadTooLarge? <==> tooLarge)
            && (why.EmptySender? <==> !tooLarge && m.sender == [])
            && (why.EmptyReceiver? <==> !tooLarge && m.sender != [] && m.receiver == [])
            && (why.TimeOutOfRange? ==> !inRange) && (why.SequenceOutOfRange? ==> |net.sent| >= 0x1_0000_0000_0000_0000)
            && (why.Unscheduled? ==> inRange && m.time < net.sched.time && why.reason == TimeInPast)
            && !why.Unlogged?
  {
    ReachedIsLive(limit, actions, net);
    NextIsCount(net);
    if m.time >= 0 {
      var e := Envelope(m.sender, m.receiver, m.payload, m.time, |net.sent|);
      FreshKeyIsAccepted(net, e);
      RefusedInPast(net.sched, e);
    }
    hide Reaches, NetOk, Live, Accept, Remember;
  }

  lemma NextIsCount(net: Net)
    requires NetOk(net)
    ensures net.nextSeq == |net.sent|
  {
    OkParts(net);
  }

  /** A popped message is put off exactly when it does not fit next to what was delivered in its tick already. */
  lemma PutOffExactlyWhen(limit: Option<nat>, actions: seq<Action>, net: Net)
    requires Reaches(FreshNet(limit), actions, net) && net.sched.active != map[]
    ensures Live(net) && NextKey(net.sched.active).sequence < |net.sent|
    ensures var k := NextKey(net.sched.active);
            PopOnce(net).1.Delivered? <==>
            net.limit.Some? ==>
              SumAt(net.deliveries, k.time) + |net.sent[k.sequence].payload| <= net.limit.value
  {
    ReachedIsLive(limit, actions, net);
    PopForm(net);
    OkParts(net);
    var k := NextKey(net.sched.active);
    assert net.limit.Some? ==> ChargedAt(net.charged, k.time) == SumAt(net.deliveries, k.time);
    hide Reaches, NetOk, Live, SentOk, QueueOk, SeenOk, FateOk, DeliveriesOk, ContextsOk, OwedOk, ChargesOk, CoverOk;
    hide LogOk, PopOnce, IsNext, SumAt, ChargedAt, AfterDelivery, AfterDeferral, AfterLoss;
  }

  // ---------- the guarantees ----------

  /** Bounded wait: whatever is sent before, between and afterwards, message s sent for tick t is delivered, or still
      waits, at a tick in [t, t + s]; it is lost only if t + s is beyond the 64-bit range. */
  lemma BoundedWait(limit: Option<nat>, actions: seq<Action>, net: Net)
    requires Reaches(FreshNet(limit), actions, net)
    ensures Known(net.deliveries, |net.sent|)
    ensures forall i :: 0 <= i < |net.deliveries| ==>
              var m := net.sent[net.deliveries[i].sequence];
              m.time <= net.deliveries[i].tick <= m.time + net.deliveries[i].sequence
    ensures forall k :: k in net.sched.active ==>
              k.sequence < |net.sent| && net.sent[k.sequence].time <= k.time <= net.sent[k.sequence].time + k.sequence
    ensures forall s :: s in net.lost ==> s < |net.sent| && net.sent[s].time + s >= UINT64_LIMIT
  {
    ReachedIsLive(limit, actions, net);
    OkParts(net);
    hide NetOk, Live, Reaches, ContextsOk, OwedOk, ChargesOk, SeenOk, Waits, InKeyOrder, NoRepeat, WasDelivered;
    assert Known(net.deliveries, |net.sent|) by {
      hide EventsOf;
    }
    assert forall m :: m in net.sent ==> 0 <= m.time;
    hide LogOk, Known;
    forall i | 0 <= i < |net.deliveries|
      ensures var m := net.sent[net.deliveries[i].sequence];
              m.time <= net.deliveries[i].tick <= m.time + net.deliveries[i].sequence
    {
      var d := net.deliveries[i];
      assert Honours(net, d);
      assert net.sent[d.sequence] in net.sent;
      CoverBoundsWait(net.deliveries, net.sent[d.sequence].time, d.tick, d.sequence);
    }
    forall k | k in net.sched.active
      ensures k.sequence < |net.sent| && net.sent[k.sequence].time <= k.time <= net.sent[k.sequence].time + k.sequence
    {
      assert net.sent[k.sequence] in net.sent;
      CoverBoundsWait(net.deliveries, net.sent[k.sequence].time, k.time, k.sequence);
    }
    forall s | s in net.lost ensures s < |net.sent| && net.sent[s].time + s >= UINT64_LIMIT {
      assert net.sent[s] in net.sent;
      CoverBoundsWait(net.deliveries, net.sent[s].time, UINT64_LIMIT, s);
    }
  }

  /** No tick ever carries more payload bytes than the limit. */
  lemma BudgetIsKept(limit: Option<nat>, actions: seq<Action>, net: Net, tick: nat)
    requires Reaches(FreshNet(limit), actions, net) && limit.Some?
    ensures SumAt(net.deliveries, tick) <= limit.value
  {
    ReachedIsLive(limit, actions, net);
    OkParts(net);
    hide NetOk, Live, Reaches, SumAt;
  }

  /** Messages that can be delivered within the 64-bit clock however long they wait. */
  ghost predicate InRange(sent: seq<Message>) {
    forall s :: 0 <= s < |sent| ==> sent[s].time + s < UINT64_LIMIT
  }

  /** `run` terminates with an empty queue, and then every message ever sent has been delivered exactly once; the
      payloads it returns are those it delivered, in delivery order. */
  lemma RunDeliversEverything(limit: Option<nat>, actions: seq<Action>, net: Net)
    requires Reaches(FreshNet(limit), actions, net) && InRange(net.sent)
    ensures Live(net)
    ensures var (end, result) := Drain(net, []);
            result.Ok? && end.sched.active == map[] && end.sent == net.sent && net.deliveries <= end.deliveries
            && NoRepeat(end.deliveries) && InKeyOrder(end.deliveries)
            && (forall s: nat :: s < |net.sent| <==> WasDelivered(end.deliveries, s))
            && Known(end.deliveries[|net.deliveries|..], |net.sent|)
            && result.value == PayloadsOf(net.sent, end.deliveries[|net.deliveries|..])
  {
    ReachedIsLive(limit, actions, net);
    hide *;
    DrainKeepsOk(net, []);
    var (end, result) := Drain(net, []);
    EmptiedMeans(net, end, result);
    NothingIsLost(end);
    EverythingArrived(end);
  }

  lemma EmptiedMeans(net: Net, end: Net, result: Result<seq<Bytes>, NetError>)
    requires Emptied(net, end, [], result)
    ensures end.sent == net.sent && net.deliveries <= end.deliveries
    ensures result.Err? ==> end.lost != {}
    ensures result.Ok? ==> end.sched.active == map[] && Known(end.deliveries[|net.deliveries|..], |net.sent|)
    ensures result.Ok? ==> result.value == PayloadsOf(net.sent, end.deliveries[|net.deliveries|..])
  {
    hide Known, PayloadsOf;
  }

  /** With nothing waiting and nothing lost, what was sent is what was delivered, each message once. */
  lemma EverythingArrived(net: Net)
    requires NetOk(net) && net.lost == {}
    ensures NoRepeat(net.deliveries) && InKeyOrder(net.deliveries)
    ensures net.sched.active == map[] ==> forall s: nat :: s < |net.sent| <==> WasDelivered(net.deliveries, s)
  {
    OkParts(net);
    hide NetOk, Live, NoRepeat, InKeyOrder, WasDelivered, SentOk, QueueOk, ContextsOk, OwedOk, ChargesOk, CoverOk;
    hide LogOk;
    if net.sched.active == map[] {
      forall s: nat ensures s < |net.sent| <==> WasDelivered(net.deliveries, s) {
        assert !Waits(net.sched.active, s);
      }
    }
  }

  lemma NothingIsLost(net: Net)
    requires NetOk(net) && InRange(net.sent)
    ensures net.lost == {}
  {
    OkParts(net);
    hide NetOk, Live, ContextsOk, OwedOk, ChargesOk, SeenOk, QueueOk, LogOk;
    forall s | s in net.lost ensures false {
      assert net.sent[s] in net.sent;
      CoverBoundsWait(net.deliveries, net.sent[s].time, UINT64_LIMIT, s);
    }
  }

  // ---------- the log ----------

  lemma {:induction false} EventsArePaired(sent: seq<Message>, deliveries: seq<Delivery>, i: nat)
    requires Known(deliveries, |sent|) && i < |deliveries|
    ensures |EventsOf(sent, deliveries)| == 2 * |deliveries|
    ensures EventsOf(sent, deliveries)[2 * i..2 * i + 2] ==
            EventPair(sent[deliveries[i].sequence], deliveries[i], 2 * i, LastTick(deliveries[..i]))
  {
    var last := |deliveries| - 1;
    var earlier := deliveries[..last];
    EventCount(sent, earlier);
    if i < last {
      EventsArePaired(sent, earlier, i);
      assert earlier[..i] == deliveries[..i];
    }
    hide EventPair;
  }

  lemma {:induction false} EventCount(sent: seq<Message>, deliveries: seq<Delivery>)
    requires Known(deliveries, |sent|)
    ensures |EventsOf(sent, deliveries)| == 2 * |deliveries|
  {
    if deliveries != [] {
      EventCount(sent, deliveries[..|deliveries| - 1]);
    }
  }

  /** With the network as the only writer no event is refused: the log holds two events for each delivery, the SEND
      right before its DELIVER, numbered 1..k, and the DELIVER at the tick of the delivery. */
  lemma LogPairsEvents(limit: Option<nat>, actions: seq<Action>, net: Net, i: nat)
    requires Reaches(FreshNet(limit), actions, net) && i < |net.deliveries|
    ensures |net.log.records| == 2 * |net.deliveries| && net.deliveries[i].sequence < |net.sent|
    ensures var d := net.deliveries[i];
            var m := net.sent[d.sequence];
            net.log.records[2 * i] == SendRecord(m, d.sequence, 2 * i + 1, Max(m.time, LastTick(net.deliveries[..i])))
            && net.log.records[2 * i + 1] == DeliverRecord(m, d.sequence, 2 * i + 2, d.tick)
  {
    ReachedIsLive(limit, actions, net);
    OkParts(net);
    hide NetOk, Live, Reaches, Max, LastTick, SendRecord, DeliverRecord;
    EventsArePaired(net.sent, net.deliveries, i);
    var pair := net.log.records[2 * i..2 * i + 2];
    assert net.log.records[2 * i] == pair[0] && net.log.records[2 * i + 1] == pair[1];
  }
}
