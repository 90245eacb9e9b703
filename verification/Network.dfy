/** The simulated network: sending, bandwidth-limited delivery, and the events it writes (src/network.py). */
module Networks {
  import opened Wrappers
  import opened Ordering
  import opened Encoding
  import opened EventLogs
  import opened Schedulers

  datatype Context = Context(height: int, round: int)

  /** The arguments of `send`; also what is remembered about a message that was accepted. */
  datatype Message = Message(sender: Bytes, receiver: Bytes, payload: Bytes, time: int, height: int, round: int)

  /** The SEND event kept back until the message is delivered. */
  datatype SendInfo = SendInfo(sender: Bytes, receiver: Bytes, time: int, height: int, round: int, size: nat)

  datatype Delivery = Delivery(sequence: nat, tick: nat, size: nat) {
    function OrderingKey(): Key {
      Key(tick, sequence)
    }
  }

  datatype NetError =
    | PayloadTooLarge | EmptySender | EmptyReceiver | TimeOutOfRange | SequenceOutOfRange
    | Unscheduled(reason: ScheduleError) | Unlogged(cause: LogError)

  /** The network with its scheduler and log. The last three fields only remember what happened: every accepted
      message in order, every delivery in order, and the messages dropped because a deferral raised. */
  datatype Net = Net(
    limit: Option<nat>, sched: Plain, nextSeq: nat, pending: Active, contexts: map<Key, Context>,
    sendEvents: map<nat, SendInfo>, charged: map<nat, nat>, deliveredSeqs: set<nat>,
    nextEventNo: nat, lastEventTime: int, log: Log,
    sent: seq<Message>, deliveries: seq<Delivery>, lost: set<nat>)

  function FreshNet(limit: Option<nat>): Net {
    Net(limit, IDLE, 0, map[], map[], map[], map[], {}, 0, 0, EMPTY_LOG, [], [], {})
  }

  // ---------- bandwidth ----------

  function ChargedAt(charged: map<nat, nat>, tick: nat): nat {
    if tick in charged then charged[tick] else 0
  }

  predicate Fits(limit: nat, charged: map<nat, nat>, tick: nat, size: nat) {
    ChargedAt(charged, tick) + size <= limit
  }

  ghost function ChargedFrom(charged: map<nat, nat>, tick: nat): set<nat> {
    set u | u in charged && tick <= u
  }

  lemma SearchAdvances(charged: map<nat, nat>, tick: nat)
    requires tick in charged
    ensures |ChargedFrom(charged, tick + 1)| < |ChargedFrom(charged, tick)|
  {
    assert ChargedFrom(charged, tick) == ChargedFrom(charged, tick + 1) + {tick};
  }

  /** The first tick from `tick` on with room for `size` bytes. */
  ghost function EarliestTick(limit: nat, charged: map<nat, nat>, tick: nat, size: nat): (r: nat)
    requires size <= limit
    ensures tick <= r && Fits(limit, charged, r, size)
    ensures forall u :: tick <= u < r ==> !Fits(limit, charged, u, size)
    decreases |ChargedFrom(charged, tick)|
  {
    if Fits(limit, charged, tick, size) then tick
    else
      SearchAdvances(charged, tick);
      EarliestTick(limit, charged, tick + 1, size)
  }

  /** With nothing charged after `tick`, the search never goes past the next tick. */
  lemma OnlyThisTickOrTheNext(limit: nat, charged: map<nat, nat>, tick: nat, size: nat)
    requires size <= limit && forall u :: u in charged ==> u <= tick
    ensures EarliestTick(limit, charged, tick, size) in {tick, tick + 1}
    ensures EarliestTick(limit, charged, tick, size) == tick <==> Fits(limit, charged, tick, size)
  {
    assert Fits(limit, charged, tick + 1, size);
  }

  predicate Within(limit: Option<nat>, size: nat) {
    limit.Some? ==> size <= limit.value
  }

  /** `_earliest_delivery_tick`. */
  ghost function DeliveryTick(net: Net, requested: nat, size: nat): nat
    requires Within(net.limit, size)
  {
    if net.limit.None? then requested
    else EarliestTick(net.limit.value, net.charged,
                      if requested < net.sched.time then net.sched.time else requested, size)
  }

  /** The tick found is the first that is neither before the clock nor before the one asked for and in which the payload
      fits beside what is charged; without a limit it is the one asked for. */
  lemma DeliveryTickIsFirst(net: Net, requested: nat, size: nat, tick: nat)
    requires Within(net.limit, size)
    ensures net.limit == None ==> DeliveryTick(net, requested, size) == requested
    ensures net.limit.Some? ==>
              (DeliveryTick(net, requested, size) == tick <==>
                 requested <= tick && net.sched.time <= tick
                 && ChargedAt(net.charged, tick) + size <= net.limit.value
                 && forall u: nat :: requested <= u < tick && net.sched.time <= u ==>
                      ChargedAt(net.charged, u) + size > net.limit.value)
  {
    if net.limit.Some? {
      var r := DeliveryTick(net, requested, size);
      assert Fits(net.limit.value, net.charged, r, size);
      forall u: nat | requested <= u < r && net.sched.time <= u
        ensures ChargedAt(net.charged, u) + size > net.limit.value
      {
        assert !Fits(net.limit.value, net.charged, u, size);
      }
    }
  }

  // ---------- sending ----------

  /** The checks of the envelope's constructor. */
  function MakeEnvelope(sender: Bytes, receiver: Bytes, payload: Bytes, time: int, sequence: nat)
    : Result<Envelope, NetError>
  {
    if sender == [] then Err(EmptySender)
    else if receiver == [] then Err(EmptyReceiver)
    else if !(0 <= time < UINT64_LIMIT) then Err(TimeOutOfRange)
    else if sequence >= UINT64_LIMIT then Err(SequenceOutOfRange)
    else Ok(Envelope(sender, receiver, payload, time, sequence))
  }

  function InfoOf(m: Message): SendInfo {
    SendInfo(m.sender, m.receiver, m.time, m.height, m.round, |m.payload|)
  }

  ghost function Remember(net: Net, sched: Plain, e: Envelope, context: Context): Net {
    net.(sched := sched, pending := net.pending[e.OrderingKey() := e],
         contexts := net.contexts[e.OrderingKey() := context])
  }

  /** `send`: nothing changes unless the message is accepted. */
  ghost function Submit(net: Net, m: Message): Result<Net, NetError> {
    if !Within(net.limit, |m.payload|) then Err(PayloadTooLarge)
    else
      match MakeEnvelope(m.sender, m.receiver, m.payload, m.time, net.nextSeq)
      case Err(why) => Err(why)
      case Ok(e) =>
        match Accept(net.sched, e)
        case Err(why) => Err(Unscheduled(why))
        case Ok(sched) =>
          Ok(Remember(net, sched, e, Context(m.height, m.round)).(
            sendEvents := net.sendEvents[net.nextSeq := InfoOf(m)], nextSeq := net.nextSeq + 1, sent := net.sent + [m]))
  }

  // ---------- events ----------

  function Max(a: int, b: int): int {
    if a < b then b else a
  }

  function SendDetails(receiver: Bytes, sequence: nat, size: nat): map<string, Detail> {
    map["receiver" := Text(receiver), "insertion_seq" := Number(sequence), "payload_size" := Number(size)]
  }

  function DeliverDetails(sender: Bytes, sequence: nat, size: nat): map<string, Detail> {
    map["sender" := Text(sender), "insertion_seq" := Number(sequence), "payload_size" := Number(size)]
  }

  /** `_write_event`: the next number, and a time clamped up to the last one written. */
  ghost function LogEvent(
    net: Net, time: int, node: Bytes, eventType: EventType, context: Context, details: map<string, Detail>)
    : (Net, Option<LogError>)
  {
    var written := Max(time, net.lastEventTime);
    var r := Record(net.nextEventNo + 1, written, node, eventType, context.height, context.round, details);
    var counted := net.(nextEventNo := net.nextEventNo + 1, lastEventTime := written);
    match Write(net.log, r)
    case Ok(log) => (counted.(log := log), None)
    case Err(why) => (counted, Some(why))
  }

  // ---------- delivering ----------

  datatype Outcome = Delivered(payload: Bytes) | Deferred | Raised(error: NetError) | Idle

  ghost function Charge(net: Net, tick: nat, size: nat): Net {
    if net.limit.None? then net else net.(charged := net.charged[tick := ChargedAt(net.charged, tick) + size])
  }

  /** The held-back SEND event, if it was not written yet. */
  ghost function LogSend(net: Net, e: Envelope): (Net, Option<LogError>) {
    var s := e.insertionSeq;
    if s !in net.sendEvents then (net, None)
    else
      var info := net.sendEvents[s];
      LogEvent(net.(sendEvents := net.sendEvents - {s}), info.time, info.sender, SEND, Context(info.height, info.round),
           SendDetails(info.receiver, s, |e.payload|))
  }

  ghost function LogDeliver(net: Net, e: Envelope, context: Context, tick: nat): (Net, Option<LogError>) {
    LogEvent(net, tick, e.receiver, DELIVER, context, DeliverDetails(e.sender, e.insertionSeq, |e.payload|))
  }

  ghost function DeliverAt(net: Net, e: Envelope, context: Context, tick: nat): (Net, Outcome) {
    var (begun, refused) := LogSend(Charge(net, tick, |e.payload|), e);
    if refused.Some? then (begun, Raised(Unlogged(refused.value)))
    else
      var (done, again) := LogDeliver(begun, e, context, tick);
      if again.Some? then (done, Raised(Unlogged(again.value))) else (done, Delivered(e.payload))
  }

  ghost function DeferTo(net: Net, e: Envelope, context: Context, tick: nat): (Net, Outcome) {
    match MakeEnvelope(e.sender, e.receiver, e.payload, tick, e.insertionSeq)
    case Err(why) => (net, Raised(why))
    case Ok(deferred) =>
      match Accept(net.sched, deferred)
      case Err(why) => (net, Raised(Unscheduled(why)))
      case Ok(sched) => (Remember(net, sched, deferred, context), Deferred)
  }

  /** `_try_deliver`. */
  ghost function Attempt(net: Net, e: Envelope, context: Context): (Net, Outcome)
    requires Within(net.limit, |e.payload|)
  {
    var tick := DeliveryTick(net, e.logicalTime, |e.payload|);
    if tick != e.logicalTime then DeferTo(net, e, context, tick) else DeliverAt(net, e, context, tick)
  }

  /** Everything queued fits into one tick, and no tick after the current one is charged. */
  ghost predicate Live(net: Net) {
    PlainOk(net.sched)
    && (forall k :: k in net.sched.active ==> Within(net.limit, |net.sched.active[k].payload|))
    && (forall u :: u in net.charged ==> u <= net.sched.time)
  }

  function ContextAt(contexts: map<Key, Context>, k: Key): Context {
    if k in contexts then contexts[k] else Context(0, 0)
  }

  /** The network after the pop of the envelope under k. */
  ghost function Popped(net: Net, k: Key): Net {
    net.(sched := Take(net.sched, k), contexts := net.contexts - {k}, pending := net.pending - {k})
  }

  ghost function Settled(net: Net, outcome: Outcome, e: Envelope): Net {
    match outcome
    case Delivered(_) =>
      net.(deliveredSeqs := net.deliveredSeqs + {e.insertionSeq},
           deliveries := net.deliveries + [Delivery(e.insertionSeq, e.logicalTime, |e.payload|)])
    case Raised(_) => net.(lost := net.lost + {e.insertionSeq})
    case _ => net
  }

  /** One turn of the loop of `_pop_and_deliver_one`. */
  ghost function PopOnce(net: Net): (Net, Outcome)
    requires Live(net) && net.sched.active != map[]
  {
    var k := NextKey(net.sched.active);
    var e := net.sched.active[k];
    var (next, outcome) := Attempt(Popped(net, k), e, ContextAt(net.contexts, k));
    (Settled(next, outcome, e), outcome)
  }

  // ---------- termination ----------

  /** The envelopes waiting for the current tick. */
  ghost function Due(p: Plain): set<Key> {
    set k | k in p.active && k.time <= p.time
  }

  ghost predicate HasRoom(net: Net, tick: nat, size: nat) {
    net.limit.Some? ==> Fits(net.limit.value, net.charged, tick, size)
  }

  /** The tick of a popped envelope is the clock after the pop, and nothing is charged beyond it. */
  lemma TickOfPopped(net: Net)
    requires Live(net) && net.sched.active != map[]
    ensures var k := NextKey(net.sched.active);
            k in net.sched.active && net.sched.active[k].OrderingKey() == k && net.sched.time <= k.time
    ensures var k := NextKey(net.sched.active);
            var size := |net.sched.active[k].payload|;
            Within(net.limit, size)
            && DeliveryTick(Popped(net, k), k.time, size) == (if HasRoom(net, k.time, size) then k.time else k.time + 1)
            && (HasRoom(net, k.time, size) || k.time == net.sched.time)
  {
    var k := NextKey(net.sched.active);
    var e := net.sched.active[k];
    if net.limit.Some? {
      OnlyThisTickOrTheNext(net.limit.value, net.charged, k.time, |e.payload|);
    }
  }

  lemma LogSendKeeps(net: Net, e: Envelope)
    ensures var next := LogSend(net, e).0;
            next.limit == net.limit && next.sched == net.sched && next.charged == net.charged
  {
    hide Write, Max;
  }

  lemma LogDeliverKeeps(net: Net, e: Envelope, context: Context, tick: nat)
    ensures var next := LogDeliver(net, e, context, tick).0;
            next.limit == net.limit && next.sched == net.sched && next.charged == net.charged
  {
    hide Write, Max;
  }

  lemma DeliverAtKeeps(net: Net, e: Envelope, context: Context, tick: nat)
    ensures var next := DeliverAt(net, e, context, tick).0;
            next.limit == net.limit && next.sched == net.sched && next.charged == Charge(net, tick, |e.payload|).charged
    ensures !DeliverAt(net, e, context, tick).1.Deferred? && !DeliverAt(net, e, context, tick).1.Idle?
  {
    hide LogSend, LogDeliver;
    var charged := Charge(net, tick, |e.payload|);
    LogSendKeeps(charged, e);
    LogDeliverKeeps(LogSend(charged, e).0, e, context, tick);
  }

  lemma DeferToMeans(net: Net, e: Envelope, context: Context, tick: nat)
    ensures var (next, outcome) := DeferTo(net, e, context, tick);
            var back := e.(logicalTime := tick);
            (outcome.Deferred? || outcome.Raised?)
            && (outcome.Deferred? ==>
                  Accept(net.sched, back).Ok? && next == Remember(net, Accept(net.sched, back).value, back, context))
            && (outcome.Raised? ==> next == net)
  {
    hide Accept, Remember;
  }

  lemma AttemptMoves(net: Net, e: Envelope, context: Context)
    requires Within(net.limit, |e.payload|)
    requires e.logicalTime <= DeliveryTick(net, e.logicalTime, |e.payload|) <= e.logicalTime + 1
    ensures var (next, outcome) := Attempt(net, e, context);
            var back := e.(logicalTime := e.logicalTime + 1);
            !outcome.Idle?
            && (outcome.Deferred? ==>
                  DeliveryTick(net, e.logicalTime, |e.payload|) != e.logicalTime && Accept(net.sched, back).Ok?
                  && next == Remember(net, Accept(net.sched, back).value, back, context))
            && (!outcome.Deferred? ==>
                  next.sched == net.sched && next.limit == net.limit
                  && (next.charged == net.charged || next.charged == Charge(net, e.logicalTime, |e.payload|).charged))
  {
    hide DeliveryTick, Accept, DeferTo, DeliverAt, Remember, Charge;
    DeliverAtKeeps(net, e, context, e.logicalTime);
    DeferToMeans(net, e, context, e.logicalTime + 1);
  }

  lemma PopOnceUnfolds(net: Net, k: Key, e: Envelope, next: Net, outcome: Outcome)
    requires Live(net) && net.sched.active != map[] && k == NextKey(net.sched.active)
    requires k in net.sched.active && e == net.sched.active[k] && Within(net.limit, |e.payload|)
    requires Attempt(Popped(net, k), e, ContextAt(net.contexts, k)) == (next, outcome)
    ensures PopOnce(net) == (Settled(next, outcome, e), outcome)
  {
    hide Live, Attempt, Popped, ContextAt, Settled;
  }

  lemma SettledKeepsQueue(net: Net, outcome: Outcome, e: Envelope)
    ensures var next := Settled(net, outcome, e);
            next.sched == net.sched && next.limit == net.limit && next.charged == net.charged
    ensures outcome.Deferred? ==> Settled(net, outcome, e) == net
  {
  }

  lemma PoppedForm(net: Net, k: Key)
    ensures Popped(net, k).sched == Take(net.sched, k) && Popped(net, k).limit == net.limit
    ensures Popped(net, k).charged == net.charged
    ensures forall tick, size :: Charge(Popped(net, k), tick, size).charged == Charge(net, tick, size).charged
  {
    hide Take;
  }

  /** What one pop does to the scheduler: the envelope leaves, or returns one tick later. */
  lemma PopOnceMoves(net: Net)
    requires Live(net) && net.sched.active != map[]
    ensures var k := NextKey(net.sched.active);
            var e := net.sched.active[k];
            var (next, outcome) := PopOnce(net);
            var back := e.(logicalTime := k.time + 1);
            !outcome.Idle?
            && (outcome.Deferred? ==>
                  k.time == net.sched.time && Accept(Take(net.sched, k), back).Ok?
                  && next == Remember(Popped(net, k), Accept(Take(net.sched, k), back).value, back,
                                      ContextAt(net.contexts, k)))
            && (!outcome.Deferred? ==>
                  next.sched == Take(net.sched, k) && next.limit == net.limit
                  && (next.charged == net.charged || next.charged == Charge(net, k.time, |e.payload|).charged))
  {
    TickOfPopped(net);
    var k := NextKey(net.sched.active);
    var e := net.sched.active[k];
    var context := ContextAt(net.contexts, k);
    hide *;
    PoppedForm(net, k);
    KeyFields(e, k);
    AttemptMoves(Popped(net, k), e, context);
    var (next, outcome) := Attempt(Popped(net, k), e, context);
    PopOnceUnfolds(net, k, e, next, outcome);
    SettledKeepsQueue(next, outcome, e);
  }

  lemma KeyFields(e: Envelope, k: Key)
    requires e.OrderingKey() == k
    ensures e.logicalTime == k.time && e.insertionSeq == k.sequence
  {
  }

  lemma PopOnceKeepsLive(net: Net)
    requires Live(net) && net.sched.active != map[]
    ensures Live(PopOnce(net).0)
  {
    PopOnceMoves(net);
    PopKeepsOk(net.sched);
    var k := NextKey(net.sched.active);
    var back := net.sched.active[k].(logicalTime := k.time + 1);
    hide PopOnce;
    if PopOnce(net).1.Deferred? {
      ScheduleKeepsOk(Take(net.sched, k), back);
    }
    hide PlainOk;
  }

  lemma TakeShrinks(p: Plain, k: Key)
    requires k in p.active
    ensures |Take(p, k).active| + 1 == |p.active|
  {
    assert (p.active - {k}).Keys == p.active.Keys - {k};
  }

  lemma DeferralKeepsSize(p: Plain, k: Key, back: Envelope)
    requires k in p.active && Accept(Take(p, k), back).Ok?
    requires forall j :: j in p.active ==> j in p.seen
    ensures |Accept(Take(p, k), back).value.active| == |p.active|
  {
    TakeShrinks(p, k);
    var next := Accept(Take(p, k), back).value;
    assert next.active.Keys == Take(p, k).active.Keys + {back.OrderingKey()};
  }

  lemma DeferralShrinksDue(p: Plain, k: Key, back: Envelope)
    requires k in p.active && k.time == p.time && back.logicalTime > p.time && Accept(Take(p, k), back).Ok?
    ensures |Due(Accept(Take(p, k), back).value)| < |Due(p)|
  {
    assert Due(Accept(Take(p, k), back).value) == Due(p) - {k};
    assert k in Due(p);
  }

  /** A deferral takes one envelope from the current tick and leaves as many waiting; any other pop leaves one less. */
  lemma PopOnceProgresses(net: Net)
    requires Live(net) && net.sched.active != map[]
    ensures PopOnce(net).1.Deferred? ==>
              |Due(PopOnce(net).0.sched)| < |Due(net.sched)| && |PopOnce(net).0.sched.active| == |net.sched.active|
    ensures !PopOnce(net).1.Deferred? ==> |PopOnce(net).0.sched.active| + 1 == |net.sched.active|
  {
    PopOnceMoves(net);
    var p := net.sched;
    var k := NextKey(p.active);
    var back := p.active[k].(logicalTime := k.time + 1);
    TakeShrinks(p, k);
    hide PopOnce, Accept, Due;
    if PopOnce(net).1.Deferred? {
      DeferralKeepsSize(p, k, back);
      DeferralShrinksDue(p, k, back);
    }
  }

  // ---------- the drivers ----------

  /** `_pop_and_deliver_one`: pops until an envelope is delivered or something is raised. */
  ghost function DeliverNext(net: Net): (Net, Outcome)
    requires Live(net)
    decreases |Due(net.sched)|
  {
    if net.sched.active == map[] then (net, Idle)
    else
      PopOnceKeepsLive(net);
      PopOnceProgresses(net);
      var (next, outcome) := PopOnce(net);
      if outcome.Deferred? then DeliverNext(next) else (next, outcome)
  }

  lemma {:induction false} DeliverNextProgresses(net: Net)
    requires Live(net)
    ensures var (next, outcome) := DeliverNext(net);
            Live(next) && !outcome.Deferred? && (outcome.Idle? <==> net.sched.active == map[])
            && (!outcome.Idle? ==> |next.sched.active| + 1 == |net.sched.active|)
    decreases |Due(net.sched)|
  {
    if net.sched.active != map[] {
      PopOnceMoves(net);
      PopOnceKeepsLive(net);
      PopOnceProgresses(net);
      hide PopOnce, Live, Due;
      if PopOnce(net).1.Deferred? {
        DeliverNextProgresses(PopOnce(net).0);
      }
    }
  }

  /** `run`: payloads are collected until the queue is empty or something is raised. */
  ghost function Drain(net: Net, collected: seq<Bytes>): (Net, Result<seq<Bytes>, NetError>)
    requires Live(net)
    decreases |net.sched.active|
  {
    if net.sched.active == map[] then (net, Ok(collected))
    else
      DeliverNextProgresses(net);
      var (next, outcome) := DeliverNext(net);
      match outcome
      case Delivered(payload) => Drain(next, collected + [payload])
      case Raised(error) => (next, Err(error))
      case _ => (next, Ok(collected))
  }

  lemma DeferKeepsLive(net: Net, e: Envelope)
    requires Live(net) && Within(net.limit, |e.payload|) && Accept(net.sched, e).Ok?
    ensures Live(net.(sched := Accept(net.sched, e).value))
  {
    ScheduleKeepsOk(net.sched, e);
    hide PlainOk;
  }

  lemma SubmitKeepsLive(net: Net, m: Message)
    requires Live(net) && Submit(net, m).Ok?
    ensures Live(Submit(net, m).value)
  {
    var e := MakeEnvelope(m.sender, m.receiver, m.payload, m.time, net.nextSeq).value;
    assert e.payload == m.payload;
    DeferKeepsLive(net, e);
    hide PlainOk, Accept, MakeEnvelope;
  }

  lemma PoppedKeepsLive(net: Net, k: Key)
    requires Live(net) && net.sched.active != map[] && k == NextKey(net.sched.active)
    ensures Live(Popped(net, k))
  {
    PopKeepsOk(net.sched);
    hide PlainOk;
  }

  lemma ChargeKeepsLive(net: Net, tick: nat, size: nat)
    requires Live(net) && tick == net.sched.time
    ensures Live(Charge(net, tick, size))
  {
    hide PlainOk;
  }

  lemma SameQueueSameLive(net: Net, next: Net)
    requires Live(net) && next.limit == net.limit && next.sched == net.sched && next.charged == net.charged
    ensures Live(next)
  {
    hide PlainOk;
  }

  // ---------- the class ----------

  class Network {
    const scheduler: Scheduler
    const eventLog: EventLog
    const bandwidthLimit: Option<nat>
    var nextEventNo: nat
    var nextInsertionSeq: nat
    var lastEventLogicalTime: int
    var pendingSendEvents: map<nat, SendInfo>
    var pending: Active
    var contexts: map<Key, Context>
    var bytesByTick: map<nat, nat>
    var deliveredSequences: set<nat>
    ghost var sent: seq<Message>
    ghost var deliveries: seq<Delivery>
    ghost var lost: set<nat>

    ghost function View(): Net
      reads this, scheduler, eventLog
    {
      Net(bandwidthLimit, scheduler.View(), nextInsertionSeq, pending, contexts, pendingSendEvents, bytesByTick,
          deliveredSequences, nextEventNo, lastEventLogicalTime, eventLog.View(), sent, deliveries, lost)
    }

    ghost predicate Valid()
      reads this, scheduler, eventLog
    {
      scheduler.Valid() && Live(View())
    }

    /** A network that is the only user of a fresh scheduler and a fresh log; a limit, if any, is positive. */
    constructor (limit: Option<nat>)
      requires limit.Some? ==> limit.value > 0
      ensures Valid() && View() == FreshNet(limit) && fresh(scheduler) && fresh(eventLog)
    {
      bandwidthLimit := limit;
      nextEventNo, nextInsertionSeq, lastEventLogicalTime := 0, 0, 0;
      pendingSendEvents, pending, contexts, bytesByTick, deliveredSequences := map[], map[], map[], map[], {};
      sent, deliveries, lost := [], [], {};
      var s := new Scheduler();
      var l := new EventLog();
      scheduler, eventLog := s, l;
    }

    method WriteEvent(
      time: int, node: Bytes, eventType: EventType, context: Context, details: map<string, Detail>)
      returns (error: Option<LogError>)
      modifies this`nextEventNo, this`lastEventLogicalTime, eventLog
      ensures (View(), error) == LogEvent(old(View()), time, node, eventType, context, details)
    {
      hide Write, Max;
      nextEventNo := nextEventNo + 1;
      var written := Max(time, lastEventLogicalTime);
      lastEventLogicalTime := written;
      error := eventLog.WriteEvent(Record(nextEventNo, written, node, eventType, context.height, context.round,
                                          details));
    }

    method Send(m: Message) returns (result: Result<Envelope, NetError>)
      requires Valid()
      modifies this, scheduler
      ensures Valid()
      ensures match Submit(old(View()), m)
              case Ok(next) => View() == next
                               && result == MakeEnvelope(m.sender, m.receiver, m.payload, m.time, old(nextInsertionSeq))
              case Err(why) => View() == old(View()) && result == Err(why)
    {
      ghost var before := View();
      hide PlainOk, Queued, Live, Accept, MakeEnvelope, InfoOf;
      if bandwidthLimit.Some? && |m.payload| > bandwidthLimit.value {
        return Err(PayloadTooLarge);
      }
      var made := MakeEnvelope(m.sender, m.receiver, m.payload, m.time, nextInsertionSeq);
      if made.Err? {
        return made;
      }
      var refused := scheduler.Schedule(made.value);
      if refused.Some? {
        return Err(Unscheduled(refused.value));
      }
      SubmitKeepsLive(before, m);
      var key := made.value.OrderingKey();
      pending := pending[key := made.value];
      contexts := contexts[key := Context(m.height, m.round)];
      pendingSendEvents := pendingSendEvents[nextInsertionSeq := InfoOf(m)];
      nextInsertionSeq := nextInsertionSeq + 1;
      sent := sent + [m];
      result := made;
      assert View() == Submit(before, m).value;
    }

    method EarliestDeliveryTick(requested: nat, size: nat) returns (tick: nat)
      requires Within(bandwidthLimit, size)
      ensures tick == DeliveryTick(View(), requested, size)
    {
      if bandwidthLimit.None? {
        return requested;
      }
      tick := if requested < scheduler.logicalTime then scheduler.logicalTime else requested;
      while !Fits(bandwidthLimit.value, bytesByTick, tick, size)
        invariant EarliestTick(bandwidthLimit.value, bytesByTick, tick, size) == DeliveryTick(View(), requested, size)
        decreases |ChargedFrom(bytesByTick, tick)|
      {
        SearchAdvances(bytesByTick, tick);
        tick := tick + 1;
      }
    }
  
    method Defer(e: Envelope, context: Context, tick: nat) returns (outcome: Outcome)
      requires Valid() && Within(bandwidthLimit, |e.payload|)
      modifies this`pending, this`contexts, scheduler
      ensures Valid() && (View(), outcome) == DeferTo(old(View()), e, context, tick)
    {
      ghost var before := View();
      hide PlainOk, Queued, Accept;
      var made := MakeEnvelope(e.sender, e.receiver, e.payload, tick, e.insertionSeq);
      if made.Err? {
        return Raised(made.error);
      }
      var refused := scheduler.Schedule(made.value);
      if refused.Some? {
        return Raised(Unscheduled(refused.value));
      }
      DeferKeepsLive(before, made.value);
      var key := made.value.OrderingKey();
      pending := pending[key := made.value];
      contexts := contexts[key := context];
      outcome := Deferred;
    }

    /** Charges the tick and writes the SEND event, if it is still owed, and the DELIVER event. */
    method DeliverNow(e: Envelope, context: Context, tick: nat) returns (outcome: Outcome)
      requires Valid() && tick == scheduler.logicalTime
      modifies this`bytesByTick, this`pendingSendEvents, this`nextEventNo, this`lastEventLogicalTime, eventLog
      ensures Valid() && (View(), outcome) == DeliverAt(old(View()), e, context, tick)
    {
      ghost var charged := Charge(View(), tick, |e.payload|);
      ChargeKeepsLive(View(), tick, |e.payload|);
      LogSendKeeps(charged, e);
      hide LogSend, PlainOk, Queued, LogDeliver, Live;
      if bandwidthLimit.Some? {
        bytesByTick := bytesByTick[tick := ChargedAt(bytesByTick, tick) + |e.payload|];
      }
      assert View() == charged;
      var refused := OwedSend(e);
      SameQueueSameLive(charged, View());
      if refused.Some? {
        return Raised(Unlogged(refused.value));
      }
      LogDeliverKeeps(View(), e, context, tick);
      refused := LogDelivery(e, context, tick);
      SameQueueSameLive(charged, View());
      outcome := if refused.Some? then Raised(Unlogged(refused.value)) else Delivered(e.payload);
    }

    method OwedSend(e: Envelope) returns (refused: Option<LogError>)
      modifies this`pendingSendEvents, this`nextEventNo, this`lastEventLogicalTime, eventLog
      ensures (View(), refused) == LogSend(old(View()), e)
    {
      hide LogEvent;
      var s := e.insertionSeq;
      if s !in pendingSendEvents {
        return None;
      }
      var info := pendingSendEvents[s];
      pendingSendEvents := pendingSendEvents - {s};
      refused := WriteEvent(info.time, info.sender, SEND, Context(info.height, info.round),
                            SendDetails(info.receiver, s, |e.payload|));
    }

    method LogDelivery(e: Envelope, context: Context, tick: nat) returns (refused: Option<LogError>)
      modifies this`nextEventNo, this`lastEventLogicalTime, eventLog
      ensures (View(), refused) == LogDeliver(old(View()), e, context, tick)
    {
      hide LogEvent;
      refused := WriteEvent(tick, e.receiver, DELIVER, context, DeliverDetails(e.sender, e.insertionSeq, |e.payload|));
    }

    method TryDeliver(e: Envelope, context: Context) returns (outcome: Outcome)
      requires Valid() && Within(bandwidthLimit, |e.payload|) && e.logicalTime == scheduler.logicalTime
      modifies this`pending, this`contexts, this`bytesByTick, this`pendingSendEvents, this`nextEventNo
      modifies this`lastEventLogicalTime, scheduler, eventLog
      ensures Valid() && (View(), outcome) == Attempt(old(View()), e, context)
    {
      hide DeferTo, DeliverAt, DeliveryTick, Live, PlainOk, Queued;
      var tick := EarliestDeliveryTick(e.logicalTime, |e.payload|);
      if tick != e.logicalTime {
        outcome := Defer(e, context, tick);
      } else {
        outcome := DeliverNow(e, context, tick);
      }
    }

    method PopAndDeliverOne() returns (outcome: Outcome)
      requires Valid()
      modifies this, scheduler, eventLog
      ensures Valid() && (View(), outcome) == DeliverNext(old(View()))
    {
      hide PlainOk, Queued, Live, PopOnce, Due;
      var empty := scheduler.Empty();
      while !empty
        invariant Valid() && (empty <==> scheduler.active == map[]) && DeliverNext(View()) == DeliverNext(old(View()))
        decreases |Due(scheduler.View())|
      {
        PopOnceProgresses(View());
        outcome := PopAndTry();
        if !outcome.Deferred? {
          return;
        }
        empty := scheduler.Empty();
      }
      outcome := Idle;
    }

    method PopAndTry() returns (outcome: Outcome)
      requires Valid() && scheduler.active != map[]
      modifies this, scheduler, eventLog
      ensures Valid() && (View(), outcome) == PopOnce(old(View()))
    {
      ghost var before := View();
      TickOfPopped(before);
      PopOnceKeepsLive(before);
      hide PlainOk, Queued, IsNext, DeliveryTick, Attempt, Live, Accept, Popped;
      var e, context := PopEnvelope();
      outcome := TryDeliver(e, context);
      ghost var next := View();
      if outcome.Delivered? {
        deliveredSequences := deliveredSequences + {e.insertionSeq};
        deliveries := deliveries + [Delivery(e.insertionSeq, e.logicalTime, |e.payload|)];
      } else if outcome.Raised? {
        lost := lost + {e.insertionSeq};
      }
      assert View() == Settled(next, outcome, e);
    }

    method PopEnvelope() returns (e: Envelope, context: Context)
      requires Valid() && scheduler.active != map[]
      modifies this`contexts, this`pending, scheduler
      ensures Valid() && View() == Popped(old(View()), NextKey(old(scheduler.active)))
      ensures e == old(scheduler.active)[NextKey(old(scheduler.active))] && e.logicalTime == scheduler.logicalTime
      ensures context == ContextAt(old(contexts), NextKey(old(scheduler.active)))
    {
      ghost var before := View();
      TickOfPopped(before);
      PoppedKeepsLive(before, NextKey(scheduler.active));
      hide PlainOk, Queued, IsNext, DeliveryTick, Live;
      var popped := scheduler.Pop();
      e := popped.value;
      var key := e.OrderingKey();
      context := ContextAt(contexts, key);
      contexts := contexts - {key};
      pending := pending - {key};
      assert View() == Popped(before, key);
    }

    method RunNext() returns (payload: Result<Option<Bytes>, NetError>)
      requires Valid()
      modifies this, scheduler, eventLog
      ensures Valid() && View() == DeliverNext(old(View())).0
      ensures payload == (match DeliverNext(old(View())).1
                          case Delivered(bytes) => Ok(Some(bytes))
                          case Raised(error) => Err(error)
                          case _ => Ok(None))
    {
      var outcome := PopAndDeliverOne();
      payload := match outcome
                 case Delivered(bytes) => Ok(Some(bytes))
                 case Raised(error) => Err(error)
                 case _ => Ok(None);
    }

    method Run() returns (payloads: Result<seq<Bytes>, NetError>)
      requires Valid()
      modifies this, scheduler, eventLog
      ensures Valid() && (View(), payloads) == Drain(old(View()), [])
    {
      hide PlainOk, Queued, Live, DeliverNext;
      var delivered: seq<Bytes> := [];
      var empty := scheduler.Empty();
      while !empty
        invariant Valid() && (empty <==> scheduler.active == map[])
        invariant Drain(View(), delivered) == Drain(old(View()), [])
        decreases |scheduler.active|
      {
        DeliverNextProgresses(View());
        var payload := RunNext();
        if payload.Err? {
          return Err(payload.error);
        }
        if payload.value.Some? {
          delivered := delivered + [payload.value.value];
        }
        empty := scheduler.Empty();
      }
      payloads := Ok(delivered);
    }
  }

  /** `Network.__init__` with its check: a limit that is not positive is a ValueError. */
  method NewNetwork(limit: Option<int>) returns (r: Option<Network>)
    ensures r.None? <==> limit.Some? && limit.value <= 0
    ensures r.Some? ==> r.value.Valid() && fresh(r.value) && fresh(r.value.scheduler) && fresh(r.value.eventLog)
    ensures r.Some? ==> r.value.View() == FreshNet(match limit case None => None case Some(n) => Some(n))
  {
    if limit.Some? && limit.value <= 0 {
      return None;
    }
    var network := new Network(match limit case None => None case Some(n) => Some(n));
    r := Some(network);
  }
}
