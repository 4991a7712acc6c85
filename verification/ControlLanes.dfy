/** The three-lane scheduler that the server's and the agent's control write queues share
    (server/client/control_write_queue.go, client/agent/control_write_queue.go). */
module ControlLanes {

  /** The types of control message that the queues tell apart. */
  datatype Kind =
    | Heartbeat | HeartbeatAck | Hello | OpenConnection | RequestWorkConn | P2PConnect
    | TunnelSnapshot | VisitorWebRTC | ConnectionFailed | Other

  datatype Lane = Critical | Urgent | Normal

  datatype Item<V> = Item(value: V, size: nat)

  /** Limits on the backlog of urgent and normal messages. */
  datatype Limits = Limits(messages: nat, bytes: nat)

  /** Urgent messages that may go ahead of a waiting normal one. */
  const BUDGET: nat := 32

  datatype Queue<V> = Queue(
    critical: seq<Item<V>>, urgent: seq<Item<V>>, normal: seq<Item<V>>,
    count: int, bytes: int, budget: nat, closed: bool)
  {
    predicate Empty() {
      critical == [] && urgent == [] && normal == []
    }

    /** The lane the next message comes from. */
    function Pick(): Lane {
      if critical != [] then Critical
      else if urgent != [] && (budget < BUDGET || normal == []) then Urgent
      else Normal
    }

    function In(lane: Lane): seq<Item<V>> {
      match lane
      case Critical => critical
      case Urgent => urgent
      case Normal => normal
    }

    function Full(size: nat, limits: Limits): bool {
      count >= limits.messages || bytes + size > limits.bytes
    }

    function Put(lane: Lane, item: Item<V>): Queue<V> {
      var q := match lane
        case Critical => this.(critical := critical + [item])
        case Urgent => this.(urgent := urgent + [item])
        case Normal => this.(normal := normal + [item]);
      q.(count := count + 1, bytes := bytes + item.size)
    }

    function Head(): Item<V>
      requires !Empty()
    {
      In(Pick())[0]
    }

    function Popped(): Queue<V>
      requires !Empty()
    {
      var q := match Pick()
        case Critical => this.(critical := critical[1..])
        case Urgent => this.(urgent := urgent[1..], budget := budget + 1)
        case Normal => this.(normal := normal[1..], budget := 0);
      q.(count := count - 1, bytes := bytes - Head().size)
    }

    function Shut(): Queue<V> {
      Queue([], [], [], 0, 0, budget, true)
    }
  }

  // ---------- conservation ----------

  function Size<V>(items: seq<Item<V>>): nat {
    if items == [] then 0 else items[0].size + Size(items[1..])
  }

  lemma {:induction false} SizeOfAppend<V>(items: seq<Item<V>>, item: Item<V>)
    ensures Size(items + [item]) == Size(items) + item.size
  {
    if items == [] {
      assert items + [item] == [item];
    } else {
      assert (items + [item])[1..] == items[1..] + [item];
      SizeOfAppend(items[1..], item);
    }
  }

  /** The counters equal what the lanes hold, and the backlog that limits apply to is within them. */
  ghost predicate Consistent<V>(q: Queue<V>, limits: Limits) {
    && q.count == |q.critical| + |q.urgent| + |q.normal|
    && q.bytes == Size(q.critical) + Size(q.urgent) + Size(q.normal)
    && |q.urgent| + |q.normal| <= limits.messages
    && Size(q.urgent) + Size(q.normal) <= limits.bytes
  }

  lemma EmptyIsConsistent<V>(q: Queue<V>, limits: Limits)
    requires q.Empty() && q.count == 0 && q.bytes == 0
    ensures Consistent(q, limits)
  {
  }

  lemma PutIsConsistent<V>(q: Queue<V>, lane: Lane, item: Item<V>, limits: Limits)
    requires Consistent(q, limits) && (lane == Critical || !q.Full(item.size, limits))
    ensures Consistent(q.Put(lane, item), limits)
  {
    SizeOfAppend(q.In(lane), item);
  }

  lemma PoppedIsConsistent<V>(q: Queue<V>, limits: Limits)
    requires Consistent(q, limits) && !q.Empty()
    ensures Consistent(q.Popped(), limits) && q.Popped().count == q.count - 1
  {
  }

  // ---------- runs of an open queue ----------

  datatype Op<V> = Enqueue(lane: Lane, item: Item<V>) | Dequeue

  /** Dequeuing from an empty queue waits. */
  function Next<V>(q: Queue<V>, op: Op<V>): Queue<V> {
    match op
    case Enqueue(lane, item) => q.Put(lane, item)
    case Dequeue => if q.Empty() then q else q.Popped()
  }

  function Run<V>(q: Queue<V>, ops: seq<Op<V>>): Queue<V>
    decreases ops
  {
    if ops == [] then q else Run(Next(q, ops[0]), ops[1..])
  }

  predicate Takes<V>(q: Queue<V>, op: Op<V>, lane: Lane) {
    op.Dequeue? && !q.Empty() && q.Pick() == lane
  }

  /** What the run takes out of one lane, in order. */
  function Taken<V>(q: Queue<V>, ops: seq<Op<V>>, lane: Lane): seq<Item<V>>
    decreases ops
  {
    if ops == [] then []
    else (if Takes(q, ops[0], lane) then [q.Head()] else []) + Taken(Next(q, ops[0]), ops[1..], lane)
  }

  /** What the run puts into one lane, in order. */
  function Added<V>(ops: seq<Op<V>>, lane: Lane): seq<Item<V>> {
    if ops == [] then []
    else (if ops[0].Enqueue? && ops[0].lane == lane then [ops[0].item] else []) + Added(ops[1..], lane)
  }

  lemma Chain<T>(taken: seq<T>, middle: seq<T>, start: seq<T>, added: seq<T>, later: seq<T>, left: seq<T>, coming: seq<T>)
    requires taken + middle == start + added
    requires later + left == middle + coming
    ensures (taken + later) + left == start + (added + coming)
  {
    assert (taken + later) + left == taken + (later + left);
    assert taken + (middle + coming) == (taken + middle) + coming;
    assert (start + added) + coming == start + (added + coming);
  }

  lemma StepIsFifo<V>(q: Queue<V>, op: Op<V>, lane: Lane)
    ensures (if Takes(q, op, lane) then [q.Head()] else []) + Next(q, op).In(lane)
            == q.In(lane) + if op.Enqueue? && op.lane == lane then [op.item] else []
  {
  }

  /** Every lane is first in, first out, and loses nothing: what was taken followed by what is left is
      what was there followed by what was added. */
  lemma {:induction false} LanesAreFifo<V>(q: Queue<V>, ops: seq<Op<V>>, lane: Lane)
    ensures Taken(q, ops, lane) + Run(q, ops).In(lane) == q.In(lane) + Added(ops, lane)
    decreases ops
  {
    if ops != [] {
      var k := Next(q, ops[0]);
      LanesAreFifo(k, ops[1..], lane);
      var taken := if Takes(q, ops[0], lane) then [q.Head()] else [];
      var added := if ops[0].Enqueue? && ops[0].lane == lane then [ops[0].item] else [];
      assert taken + k.In(lane) == q.In(lane) + added by { StepIsFifo(q, ops[0], lane); }
      Chain(taken, k.In(lane), q.In(lane), added,
            Taken(k, ops[1..], lane), Run(k, ops[1..]).In(lane), Added(ops[1..], lane));
    } else {
      assert [] + q.In(lane) == q.In(lane) + [];
    }
  }

  /** Dequeues that did not go to the critical lane. */
  function NonCritical<V>(q: Queue<V>, ops: seq<Op<V>>): nat {
    |Taken(q, ops, Urgent)| + |Taken(q, ops, Normal)|
  }

  /** An upper bound on the non-critical dequeues up to and including that of the normal message at index i. */
  function Patience(budget: nat, i: nat): nat {
    (BUDGET + 1) * i + 1 + if budget < BUDGET then BUDGET - budget else 0
  }

  lemma {:induction false} NormalIsTakenInTime<V>(q: Queue<V>, ops: seq<Op<V>>, i: nat)
    requires i < |q.normal| && NonCritical(q, ops) >= Patience(q.budget, i)
    ensures |Taken(q, ops, Normal)| > i
    decreases ops
  {
    if ops != [] {
      var k := Next(q, ops[0]);
      if Takes(q, ops[0], Normal) {
        if i > 0 { NormalIsTakenInTime(k, ops[1..], i - 1); }
      } else {
        NormalIsTakenInTime(k, ops[1..], i);
      }
    }
  }

  /** Bounded waiting. In an open queue a normal message with i normal messages ahead of it is taken
      within 33*(i + 1) non-critical dequeues, whatever else arrives and however large the budget
      counter grew before; it is the (i+1)-th normal message taken. */
  lemma BoundedWaiting<V>(q: Queue<V>, ops: seq<Op<V>>, i: nat)
    requires i < |q.normal| && NonCritical(q, ops) >= 33 * (i + 1)
    ensures i < |Taken(q, ops, Normal)| && Taken(q, ops, Normal)[i] == q.normal[i]
  {
    NormalIsTakenInTime(q, ops, i);
    LanesAreFifo(q, ops, Normal);
    assert (Taken(q, ops, Normal) + Run(q, ops).normal)[i] == q.normal[i];
  }

  // ---------- priorities ----------

  /** Which lane is served: a critical message always; otherwise an urgent one, exactly while fewer than 32 urgent
      ones went ahead or no normal one waits. */
  lemma PickByPriority<V>(q: Queue<V>)
    requires !q.Empty()
    ensures q.In(q.Pick()) != []
    ensures q.Pick() == Critical <==> q.critical != []
    ensures q.critical == [] ==> (q.Pick() == Urgent <==> q.urgent != [] && (q.budget < 32 || q.normal == []))
  {
  }

  function Dequeues<V>(ops: seq<Op<V>>): nat {
    if ops == [] then 0 else (if ops[0].Dequeue? then 1 else 0) + Dequeues(ops[1..])
  }

  /** No urgent or normal message is taken while a critical one waits: the critical message with i critical ones
      ahead of it is taken within i + 1 dequeues, whatever else waits or arrives. */
  lemma {:induction false} CriticalIsNext<V>(q: Queue<V>, ops: seq<Op<V>>, i: nat)
    requires i < |q.critical| && Dequeues(ops) > i
    ensures i < |Taken(q, ops, Critical)| && Taken(q, ops, Critical)[i] == q.critical[i]
    decreases ops
  {
    var k := Next(q, ops[0]);
    if ops[0].Enqueue? {
      CriticalIsNext(k, ops[1..], i);
    } else if i > 0 {
      CriticalIsNext(k, ops[1..], i - 1);
    }
  }

  /** How many urgent messages were taken since the last normal one, `since` of them before the run. */
  function AheadOfNormal<V>(q: Queue<V>, ops: seq<Op<V>>, since: nat): nat
    decreases ops
  {
    if ops == [] then since
    else
      AheadOfNormal(Next(q, ops[0]), ops[1..],
                    if Takes(q, ops[0], Normal) then 0 else if Takes(q, ops[0], Urgent) then since + 1 else since)
  }

  /** That is what the budget counts. */
  lemma {:induction false} BudgetCounts<V>(q: Queue<V>, ops: seq<Op<V>>)
    ensures Run(q, ops).budget == AheadOfNormal(q, ops, q.budget)
    decreases ops
  {
    if ops != [] {
      BudgetCounts(Next(q, ops[0]), ops[1..]);
    }
  }

  /** The normal messages that can be taken ahead of the urgent one at index i. */
  function Interruptions(budget: nat, i: nat): nat {
    ((if budget < BUDGET then budget else BUDGET) + i) / BUDGET
  }

  /** An urgent message with i urgent ones ahead of it waits for at most one normal one per 32 urgent ones. */
  lemma {:induction false} UrgentIsTakenInTime<V>(q: Queue<V>, ops: seq<Op<V>>, i: nat)
    requires i < |q.urgent| && NonCritical(q, ops) > i + Interruptions(q.budget, i)
    ensures i < |Taken(q, ops, Urgent)|
    decreases ops
  {
    if ops != [] {
      var k := Next(q, ops[0]);
      if Takes(q, ops[0], Urgent) {
        if i > 0 { UrgentIsTakenInTime(k, ops[1..], i - 1); }
      } else {
        UrgentIsTakenInTime(k, ops[1..], i);
      }
    }
  }

  // ---------- the bound is exact ----------

  /** Every urgent or normal message of the run finds room within the limits. */
  predicate Accepted<V>(q: Queue<V>, ops: seq<Op<V>>, limits: Limits)
    decreases ops
  {
    ops != [] ==>
      && (ops[0].Enqueue? && ops[0].lane != Critical ==> !q.Full(ops[0].item.size, limits))
      && Accepted(Next(q, ops[0]), ops[1..], limits)
  }

  function Repeat<T>(x: T, n: nat): (r: seq<T>)
    ensures |r| == n && forall i :: 0 <= i < n ==> r[i] == x
  {
    seq(n, _ => x)
  }

  /** `n` copies of one normal message, an urgent one if `busy`, when `b` urgent ones went ahead already. */
  function Backlog<V>(urgent: Item<V>, normal: Item<V>, busy: bool, n: nat, b: nat): Queue<V> {
    var first := if busy then 1 else 0;
    Queue([], Repeat(urgent, first), Repeat(normal, n), first + n, first * urgent.size + n * normal.size, b, false)
  }

  lemma OneMore(n: nat, size: nat)
    ensures (n + 1) * size == n * size + size
  {
  }

  lemma Larger(x: nat, y: nat, size: nat)
    requires x <= y
    ensures x * size <= y * size
  {
  }

  lemma PutIntoBacklog<V>(urgent: Item<V>, normal: Item<V>, n: nat, b: nat)
    ensures Backlog(urgent, normal, false, n, b).Put(Urgent, urgent) == Backlog(urgent, normal, true, n, b)
    ensures Backlog(urgent, normal, false, n, b).Put(Normal, normal) == Backlog(urgent, normal, false, n + 1, b)
  {
    assert Repeat(urgent, 0) + [urgent] == Repeat(urgent, 1);
    assert Repeat(normal, n) + [normal] == Repeat(normal, n + 1);
    OneMore(n, normal.size);
  }

  lemma PoppedBacklog<V>(urgent: Item<V>, normal: Item<V>, n: nat, b: nat)
    requires n > 0 && b <= BUDGET
    ensures var q := Backlog(urgent, normal, true, n, b);
            && !q.Empty() && q.Pick() == (if b < BUDGET then Urgent else Normal)
            && q.Popped() == (if b < BUDGET then Backlog(urgent, normal, false, n, b + 1)
                              else Backlog(urgent, normal, true, n - 1, 0))
  {
    var q := Backlog(urgent, normal, true, n, b);
    assert q.urgent[1..] == Repeat(urgent, 0);
    assert q.normal[1..] == Repeat(normal, n - 1);
    OneMore(n - 1, normal.size);
  }

  /** `n` normal messages with an urgent one fit the limits. */
  predicate Fits<V>(urgent: Item<V>, normal: Item<V>, n: nat, limits: Limits) {
    n + 1 <= limits.messages && urgent.size + n * normal.size <= limits.bytes
  }

  lemma FewerFit<V>(urgent: Item<V>, normal: Item<V>, m: nat, n: nat, limits: Limits)
    requires Fits(urgent, normal, n, limits) && m <= n
    ensures Fits(urgent, normal, m, limits)
  {
    Larger(m, n, normal.size);
  }

  lemma RoomInBacklog<V>(urgent: Item<V>, normal: Item<V>, n: nat, b: nat, limits: Limits)
    requires Fits(urgent, normal, n, limits)
    ensures !Backlog(urgent, normal, false, n, b).Full(urgent.size, limits)
  {
  }

  lemma RoomForNormal<V>(urgent: Item<V>, normal: Item<V>, n: nat, b: nat, limits: Limits)
    requires Fits(urgent, normal, n + 1, limits)
    ensures !Backlog(urgent, normal, false, n, b).Full(normal.size, limits)
  {
    OneMore(n, normal.size);
  }

  /** `n` normal messages and then an urgent one. */
  function Filling<V>(urgent: Item<V>, normal: Item<V>, n: nat): seq<Op<V>> {
    if n == 0 then [Enqueue(Urgent, urgent)] else [Enqueue(Normal, normal)] + Filling(urgent, normal, n - 1)
  }

  lemma {:induction false} FillingRuns<V>(urgent: Item<V>, normal: Item<V>, m: nat, n: nat, limits: Limits)
    requires Fits(urgent, normal, m + n, limits)
    ensures var q := Backlog(urgent, normal, false, m, 0);
            && Run(q, Filling(urgent, normal, n)) == Backlog(urgent, normal, true, m + n, 0)
            && Accepted(q, Filling(urgent, normal, n), limits)
    decreases n
  {
    PutIntoBacklog(urgent, normal, m, 0);
    if n == 0 {
      RoomInBacklog(urgent, normal, m, 0, limits);
      assert Filling(urgent, normal, 0)[1..] == [];
    } else {
      FewerFit(urgent, normal, m + 1, m + n, limits);
      RoomForNormal(urgent, normal, m, 0, limits);
      FillingRuns(urgent, normal, m + 1, n - 1, limits);
      assert Filling(urgent, normal, n)[1..] == Filling(urgent, normal, n - 1);
    }
  }

  /** The slowest service of the normal message behind `i` others: an urgent one arrives after each urgent one
      that is taken. */
  function Slow<V>(urgent: Item<V>, b: nat, i: nat): seq<Op<V>>
    requires b <= BUDGET
    decreases i, BUDGET - b
  {
    if b < BUDGET then [Dequeue, Enqueue(Urgent, urgent)] + Slow(urgent, b + 1, i)
    else if i > 0 then [Dequeue] + Slow(urgent, 0, i - 1)
    else []
  }

  lemma NothingTaken<V>(q: Queue<V>, limits: Limits)
    ensures NonCritical(q, []) == 0 && Taken(q, [], Normal) == [] && Accepted(q, [], limits)
  {
  }

  lemma AfterDequeue<V>(q: Queue<V>, ops: seq<Op<V>>, limits: Limits)
    requires !q.Empty() && q.Pick() != Critical
    ensures NonCritical(q, [Dequeue] + ops) == NonCritical(q.Popped(), ops) + 1
    ensures |Taken(q, [Dequeue] + ops, Normal)|
            == |Taken(q.Popped(), ops, Normal)| + if q.Pick() == Normal then 1 else 0
    ensures Accepted(q, [Dequeue] + ops, limits) == Accepted(q.Popped(), ops, limits)
  {
    assert ([Dequeue] + ops)[1..] == ops;
  }

  lemma AfterEnqueue<V>(q: Queue<V>, item: Item<V>, ops: seq<Op<V>>, limits: Limits)
    ensures var put := [Enqueue(Urgent, item)] + ops;
            && NonCritical(q, put) == NonCritical(q.Put(Urgent, item), ops)
            && Taken(q, put, Normal) == Taken(q.Put(Urgent, item), ops, Normal)
            && Accepted(q, put, limits) == (!q.Full(item.size, limits) && Accepted(q.Put(Urgent, item), ops, limits))
  {
    assert ([Enqueue(Urgent, item)] + ops)[1..] == ops;
  }

  lemma {:induction false} SlowRuns<V>(urgent: Item<V>, normal: Item<V>, n: nat, b: nat, i: nat, limits: Limits)
    requires i < n && b <= BUDGET && Fits(urgent, normal, n, limits)
    ensures var q, ops := Backlog(urgent, normal, true, n, b), Slow(urgent, b, i);
            && NonCritical(q, ops) == Patience(b, i) - 1 && |Taken(q, ops, Normal)| == i
            && Accepted(q, ops, limits)
    decreases i, BUDGET - b
  {
    hide NonCritical, Taken, Accepted, Backlog, Fits, Queue.Pick, Queue.Popped, Queue.Put, Queue.Full, Queue.Empty;
    var q := Backlog(urgent, normal, true, n, b);
    PoppedBacklog(urgent, normal, n, b);
    if b < BUDGET {
      var rest := Slow(urgent, b + 1, i);
      SlowRuns(urgent, normal, n, b + 1, i, limits);
      PutIntoBacklog(urgent, normal, n, b + 1);
      RoomInBacklog(urgent, normal, n, b + 1, limits);
      AfterEnqueue(Backlog(urgent, normal, false, n, b + 1), urgent, rest, limits);
      AfterDequeue(q, [Enqueue(Urgent, urgent)] + rest, limits);
      assert Slow(urgent, b, i) == [Dequeue] + ([Enqueue(Urgent, urgent)] + rest);
    } else if i > 0 {
      FewerFit(urgent, normal, n - 1, n, limits);
      SlowRuns(urgent, normal, n - 1, 0, i - 1, limits);
      AfterDequeue(q, Slow(urgent, 0, i - 1), limits);
    } else {
      NothingTaken(q, limits);
    }
  }

  /** From an empty queue and within the limits, for every i that leaves room for one urgent message besides
      i + 1 normal ones: 33*(i + 1) - 1 non-critical dequeues are not enough. */
  lemma WaitingBoundIsReached<V>(empty: Queue<V>, urgent: Item<V>, normal: Item<V>, i: nat, limits: Limits)
      returns (arrivals: seq<Op<V>>, ops: seq<Op<V>>)
    requires empty == Queue([], [], [], 0, 0, 0, false)
    requires i + 2 <= limits.messages && urgent.size + (i + 1) * normal.size <= limits.bytes
    ensures Accepted(empty, arrivals, limits)
    ensures var q := Run(empty, arrivals);
            && i < |q.normal| && Accepted(q, ops, limits)
            && NonCritical(q, ops) == 33 * (i + 1) - 1 && |Taken(q, ops, Normal)| == i
    ensures forall op <- arrivals + ops :: op.Enqueue? ==>
              (op.lane == Urgent && op.item == urgent) || (op.lane == Normal && op.item == normal)
  {
    arrivals, ops := Filling(urgent, normal, i + 1), Slow(urgent, 0, i);
    assert empty == Backlog(urgent, normal, false, 0, 0);
    FillingRuns(urgent, normal, 0, i + 1, limits);
    SlowRuns(urgent, normal, i + 1, 0, i, limits);
    assert |Backlog(urgent, normal, true, i + 1, 0).normal| == i + 1;
    FillingPuts(urgent, normal, i + 1);
    SlowPuts(urgent, 0, i);
  }

  lemma {:induction false} FillingPuts<V>(urgent: Item<V>, normal: Item<V>, n: nat)
    ensures forall op <- Filling(urgent, normal, n) ::
              op == Op.Enqueue(Urgent, urgent) || op == Op.Enqueue(Normal, normal)
  {
    if n > 0 {
      FillingPuts(urgent, normal, n - 1);
    }
  }

  lemma {:induction false} SlowPuts<V>(urgent: Item<V>, b: nat, i: nat)
    requires b <= BUDGET
    ensures forall op <- Slow(urgent, b, i) :: op == Op.Dequeue || op == Op.Enqueue(Urgent, urgent)
    decreases i, BUDGET - b
  {
    if b < BUDGET {
      SlowPuts(urgent, b + 1, i);
    } else if i > 0 {
      SlowPuts(urgent, 0, i - 1);
    }
  }
}
