/**
 The metered channel (crates/mysten-metrics/src/metered_channel.rs): a bounded queue whose
 occupancy is mirrored by a shared gauge.  Each queue operation and the gauge update that reports
 it are separate steps, and the steps of all senders, permit holders and the receiver interleave.
 */
module MeteredChannel {

  type Value = int

  /** Where an operation of a sender or a permit holder stands. */
  datatype Phase =
    | Pushed      // the value is queued, the gauge not yet raised
    | Reserved    // a slot is reserved, the gauge not yet raised
    | Holding     // a permit is held and counted
    | Dropping    // a dropped permit has lowered the gauge but still has its slot

  datatype Receiving = Idle | Popped | Lowered

  /** The channel; `ops` holds the phase of every operation in flight. */
  datatype Channel = Channel(
    capacity: nat,
    queue: seq<Value>,
    closed: bool,
    ops: multiset<Phase>,
    receiving: Receiving,
    gauge: int,
    counted: bool,
    total: nat,
    sent: seq<Value>,
    received: seq<Value>)

  datatype Step =
    | Push(value: Value)
    | RaiseForPush
    | Reserve
    | RaiseForPermit
    | SendPermit(value: Value)
    | LowerForDrop
    | ReleaseSlot
    | Pop
    | LowerForPop
    | CountPop
    | Close

  /** A new channel; `counted` when it was made with a total counter. */
  function NewChannel(capacity: nat, counted: bool): Channel {
    Channel(capacity, [], false, multiset{}, Idle, 0, counted, 0, [], [])
  }

  /** Slots held by reservations and permits. */
  function Slots(ops: multiset<Phase>): nat { ops[Reserved] + ops[Holding] + ops[Dropping] }

  predicate HasRoom(c: Channel) { !c.closed && |c.queue| + Slots(c.ops) < c.capacity }

  predicate Enabled(c: Channel, step: Step) {
    match step
    case Push(_) => HasRoom(c)
    case RaiseForPush => Pushed in c.ops
    case Reserve => HasRoom(c)
    case RaiseForPermit => Reserved in c.ops
    case SendPermit(_) => Holding in c.ops
    case LowerForDrop => Holding in c.ops
    case ReleaseSlot => Dropping in c.ops
    case Pop => c.receiving == Idle && c.queue != []
    case LowerForPop => c.receiving == Popped
    case CountPop => c.receiving == Lowered
    case Close => true
  }

  function Start(ops: multiset<Phase>, p: Phase): multiset<Phase> { ops[p := ops[p] + 1] }

  function Finish(ops: multiset<Phase>, p: Phase): multiset<Phase>
    requires p in ops
  {
    ops[p := ops[p] - 1]
  }

  function Do(c: Channel, step: Step): Channel
    requires Enabled(c, step)
  {
    match step
    case Push(v) => c.(queue := c.queue + [v], sent := c.sent + [v], ops := Start(c.ops, Pushed))
    case RaiseForPush => c.(gauge := c.gauge + 1, ops := Finish(c.ops, Pushed))
    case Reserve => c.(ops := Start(c.ops, Reserved))
    case RaiseForPermit => c.(gauge := c.gauge + 1, ops := Start(Finish(c.ops, Reserved), Holding))
    case SendPermit(v) => c.(queue := c.queue + [v], sent := c.sent + [v], ops := Finish(c.ops, Holding))
    case LowerForDrop => c.(gauge := c.gauge - 1, ops := Start(Finish(c.ops, Holding), Dropping))
    case ReleaseSlot => c.(ops := Finish(c.ops, Dropping))
    case Pop => c.(queue := c.queue[1..], received := c.received + [c.queue[0]], receiving := Popped)
    case LowerForPop => c.(gauge := c.gauge - 1, receiving := Lowered)
    case CountPop => c.(total := if c.counted then c.total + 1 else c.total, receiving := Idle)
    case Close => c.(closed := true)
  }

  ghost predicate Next(c: Channel, c': Channel) {
    exists step :: Enabled(c, step) && c' == Do(c, step)
  }

  // ---------------------------------------------------------------- the invariant

  /** The gauge is the occupancy as far as it has been reported: queued values and counted permits,
      less the pushes not yet reported, plus the value popped but not yet reported. */
  predicate Metered(c: Channel) {
    c.gauge == |c.queue| + c.ops[Holding] - c.ops[Pushed] + (if c.receiving == Popped then 1 else 0)
  }

  /** Values and slots fit the capacity, and the total lags the received values by the one in hand. */
  predicate Inv(c: Channel) {
    && Metered(c)
    && |c.queue| + Slots(c.ops) <= c.capacity
    && c.total == (if c.counted then |c.received| - (if c.receiving == Idle then 0 else 1) else 0)
  }

  lemma StepKeepsGauge(c: Channel, step: Step)
    requires Metered(c) && Enabled(c, step)
    ensures Metered(Do(c, step))
  {
  }

  lemma StepKeepsRoom(c: Channel, step: Step)
    requires |c.queue| + Slots(c.ops) <= c.capacity && Enabled(c, step)
    ensures var c' := Do(c, step); |c'.queue| + Slots(c'.ops) <= c'.capacity
  {
  }

  lemma StepKeeps(c: Channel, step: Step)
    requires Inv(c) && Enabled(c, step)
    ensures Inv(Do(c, step))
  {
    StepKeepsGauge(c, step);
    StepKeepsRoom(c, step);
  }

  /** What was sent is what was received, then what is queued. */
  ghost predicate Fifo(c: Channel) { c.sent == c.received + c.queue }

  lemma QueueOrder(sent: seq<Value>, received: seq<Value>, queue: seq<Value>, v: Value)
    requires sent == received + queue
    ensures sent + [v] == received + (queue + [v])
    ensures queue != [] ==> sent == (received + [queue[0]]) + queue[1..]
  {
  }

  lemma StepKeepsFifo(c: Channel, step: Step)
    requires Fifo(c) && Enabled(c, step)
    ensures Fifo(Do(c, step))
  {
    QueueOrder(c.sent, c.received, c.queue, if step.Push? || step.SendPermit? then step.value else 0);
  }

  ghost predicate Run(tr: seq<Channel>) {
    && |tr| > 0
    && tr[0] == NewChannel(tr[0].capacity, tr[0].counted)
    && (forall i | 0 <= i < |tr| - 1 :: Next(tr[i], tr[i + 1]))
  }

  lemma {:induction false} RunKeeps(tr: seq<Channel>, i: nat)
    requires Run(tr) && i < |tr|
    ensures Inv(tr[i]) && Fifo(tr[i])
    ensures tr[i].capacity == tr[0].capacity && tr[i].counted == tr[0].counted
  {
    if i == 0 {
    } else {
      RunKeeps(tr, i - 1);
      assert Next(tr[i - 1], tr[i - 1 + 1]);
      var step :| Enabled(tr[i - 1], step) && tr[i] == Do(tr[i - 1], step);
      StepKeeps(tr[i - 1], step);
      StepKeepsFifo(tr[i - 1], step);
    }
  }

  // ---------------------------------------------------------------- what every interleaving guarantees

  /** Every operation has reported itself: only counted permits are in flight. */
  predicate Quiescent(c: Channel) {
    c.receiving == Idle && forall p | p in c.ops :: p == Holding
  }

  /** At quiescence the gauge equals the occupancy and lies between 0 and the capacity, and the total
      counts the values received. */
  lemma GaugeIsOccupancyWhenQuiescent(tr: seq<Channel>, i: nat)
    requires Run(tr) && i < |tr| && Quiescent(tr[i])
    ensures tr[i].gauge == |tr[i].queue| + Slots(tr[i].ops)
    ensures 0 <= tr[i].gauge <= tr[0].capacity
    ensures tr[i].counted ==> tr[i].total == |tr[i].received|
  {
    RunKeeps(tr, i);
    assert Pushed !in tr[i].ops && Reserved !in tr[i].ops && Dropping !in tr[i].ops;
  }

  /** In every state the gauge is the reported occupancy: off by at most the unreported pushes below,
      and one unreported pop above the capacity.  Values are received in the order they were sent,
      none lost or repeated. */
  lemma GaugeInEveryState(tr: seq<Channel>, i: nat)
    requires Run(tr) && i < |tr|
    ensures tr[i].gauge == |tr[i].queue| + tr[i].ops[Holding] - tr[i].ops[Pushed]
                           + (if tr[i].receiving == Popped then 1 else 0)
    ensures -tr[i].ops[Pushed] <= tr[i].gauge <= tr[0].capacity + 1
    ensures tr[i].sent == tr[i].received + tr[i].queue
    ensures tr[i].counted ==> |tr[i].received| - 1 <= tr[i].total <= |tr[i].received|
  {
    RunKeeps(tr, i);
  }

  /** The gauge is negative exactly when more pushes are unreported than values and permits are there to
      make up for them, and above the capacity, then by one, exactly when a pop is unreported from a
      channel that is full again with every push reported. */
  lemma GaugeOutOfRangeIff(tr: seq<Channel>, i: nat)
    requires Run(tr) && i < |tr|
    ensures var c := tr[i];
      && (c.gauge < 0 <==> |c.queue| + c.ops[Holding] + (if c.receiving == Popped then 1 else 0) < c.ops[Pushed])
      && (c.gauge > c.capacity
          <==> c.receiving == Popped && |c.queue| + c.ops[Holding] == c.capacity && c.ops[Pushed] == 0)
      && c.gauge <= c.capacity + 1
  {
    RunKeeps(tr, i);
  }

  /** Away from quiescence the gauge can be negative: a value is received and reported before its
      sender has reported it. */
  lemma GaugeCanBeNegative()
    ensures exists tr: seq<Channel> :: Run(tr) && tr[|tr| - 1].gauge == -1
  {
    var c0 := NewChannel(1, true);
    var c1 := Do(c0, Push(7));
    var c2 := Do(c1, Pop);
    var c3 := Do(c2, LowerForPop);
    var tr := [c0, c1, c2, c3];
    assert Next(c0, c1) && Next(c1, c2) && Next(c2, c3);
    assert Run(tr) && tr[|tr| - 1].gauge == -1;
  }

  /** The gauge can exceed the capacity: the slot of a popped value is filled and reported before the pop
      is. */
  lemma GaugeCanExceedCapacity()
    ensures exists tr: seq<Channel> :: Run(tr) && tr[|tr| - 1].gauge == tr[|tr| - 1].capacity + 1
  {
    var c0 := NewChannel(1, true);
    var c1 := Do(c0, Push(7));
    var c2 := Do(c1, RaiseForPush);
    var c3 := Do(c2, Pop);
    var c4 := Do(c3, Push(8));
    var c5 := Do(c4, RaiseForPush);
    var tr := [c0, c1, c2, c3, c4, c5];
    assert Next(c0, c1) && Next(c1, c2) && Next(c2, c3) && Next(c3, c4) && Next(c4, c5);
    assert Run(tr) && tr[|tr| - 1].gauge == tr[|tr| - 1].capacity + 1;
  }

  // ---------------------------------------------------------------- closing

  /** Slots that may still be sent through. */
  function Pending(c: Channel): nat { c.ops[Reserved] + c.ops[Holding] }

  lemma ClosedStep(c: Channel, step: Step)
    requires c.closed && Enabled(c, step)
    ensures Do(c, step).closed && |c.sent| <= |Do(c, step).sent|
    ensures |Do(c, step).sent| + Pending(Do(c, step)) <= |c.sent| + Pending(c)
  {
  }

  lemma ClosedNext(c: Channel, c': Channel)
    requires c.closed && Next(c, c')
    ensures c'.closed && |c.sent| <= |c'.sent| && |c'.sent| + Pending(c') <= |c.sent| + Pending(c)
  {
    var step :| Enabled(c, step) && c' == Do(c, step);
    ClosedStep(c, step);
  }

  /** A closed channel stays closed and takes nothing more than what was reserved before. */
  lemma {:induction false} ClosedTakesOnlyReserved(tr: seq<Channel>, i: nat, j: nat)
    requires Run(tr) && i <= j < |tr| && tr[i].closed
    ensures tr[j].closed && |tr[i].sent| <= |tr[j].sent|
    ensures |tr[j].sent| + Pending(tr[j]) <= |tr[i].sent| + Pending(tr[i])
    decreases j
  {
    if i == j {
    } else {
      ClosedTakesOnlyReserved(tr, i, j - 1);
      assert Next(tr[j - 1], tr[j - 1 + 1]);
      ClosedNext(tr[j - 1], tr[j]);
    }
  }
}
