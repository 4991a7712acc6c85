/** The server's control write queue (server/client/control_write_queue.go). */
module ServerControlQueue {
  import opened Options
  import opened ControlLanes

  datatype Message = Message(kind: Kind, payloadLength: nat)

  /** `ticket` identifies the call that queued the message; `waits` tells whether it has a done channel. */
  datatype Queued = Queued(message: Message, ticket: nat, waits: bool)

  datatype Refusal = QueueClosed | QueueFull

  const LIMITS := Limits(131072, 536870912)

  function MessageSize(m: Message): nat {
    m.payloadLength + 128
  }

  predicate IsCritical(m: Message) {
    m.kind == Heartbeat || m.kind == HeartbeatAck
  }

  predicate IsUrgent(m: Message) {
    m.kind != Other
  }

  function LaneOf(m: Message): Lane {
    if IsCritical(m) then Critical else if IsUrgent(m) then Urgent else Normal
  }

  function ItemOf(value: Queued): Item<Queued> {
    Item(value, MessageSize(value.message))
  }

  /** Only critical messages are taken in beyond the limits. */
  function Refused(q: Queue<Queued>, value: Queued): Option<Refusal> {
    if q.closed then Some(QueueClosed)
    else if !IsCritical(value.message) && q.Full(MessageSize(value.message), LIMITS) then Some(QueueFull)
    else None
  }

  function Pending(q: Queue<Queued>): seq<Item<Queued>> {
    q.critical + q.urgent + q.normal
  }

  datatype Dequeued = Wait | Stop | Write(item: Item<Queued>)

  class WriteQueue {
    var critical: seq<Item<Queued>>
    var urgent: seq<Item<Queued>>
    var normal: seq<Item<Queued>>
    var queuedCount: int
    var queuedBytes: int
    var urgentBudget: nat
    var closed: bool

    function View(): Queue<Queued>
      reads this
    {
      Queue(critical, urgent, normal, queuedCount, queuedBytes, urgentBudget, closed)
    }

    ghost predicate Valid()
      reads this
    {
      Consistent(View(), LIMITS)
    }

    constructor ()
      ensures Valid() && View() == Queue([], [], [], 0, 0, 0, false)
    {
      critical, urgent, normal := [], [], [];
      queuedCount, queuedBytes, urgentBudget, closed := 0, 0, 0, false;
      new;
      EmptyIsConsistent(View(), LIMITS);
    }

    method Enqueue(value: Queued) returns (refused: Option<Refusal>)
      requires Valid()
      modifies this
      ensures Valid()
      ensures refused == Refused(old(View()), value)
      ensures View() == if refused.Some? then old(View()) else old(View()).Put(LaneOf(value.message), ItemOf(value))
      ensures var size, kind := value.message.payloadLength + 128, value.message.kind;
              if old(closed) then refused == Some(QueueClosed)
              else if kind == Heartbeat || kind == HeartbeatAck then
                refused == None && critical == old(critical) + [Item(value, size)]
              else if old(queuedCount) >= 131072 || old(queuedBytes) + size > 536870912 then refused == Some(QueueFull)
              else if kind == Other then refused == None && normal == old(normal) + [Item(value, size)]
              else refused == None && urgent == old(urgent) + [Item(value, size)]
    {
      hide Consistent;
      if closed {
        return Some(QueueClosed);
      }
      var size := MessageSize(value.message);
      var isCritical := IsCritical(value.message);
      if !isCritical && (queuedCount >= LIMITS.messages || queuedBytes + size > LIMITS.bytes) {
        return Some(QueueFull);
      }
      PutIsConsistent(View(), LaneOf(value.message), ItemOf(value), LIMITS);
      if isCritical {
        critical := critical + [Item(value, size)];
      } else if IsUrgent(value.message) {
        urgent := urgent + [Item(value, size)];
      } else {
        normal := normal + [Item(value, size)];
      }
      queuedCount := queuedCount + 1;
      queuedBytes := queuedBytes + size;
      return None;
    }

    /** `Wait` stands for sleeping on the condition. */
    method Next() returns (taken: Dequeued)
      requires Valid()
      modifies this
      ensures Valid()
      ensures taken == if old(closed) then Stop else if old(View()).Empty() then Wait else Write(old(View()).Head())
      ensures View() == if taken.Write? then old(View()).Popped() else old(View())
      ensures !old(closed) && old(critical) != [] ==>
                taken == Write(old(critical)[0]) && critical == old(critical)[1..] && urgentBudget == old(urgentBudget)
      ensures !old(closed) && old(critical) == [] && old(urgent) != [] && (old(urgentBudget) < 32 || old(normal) == []) ==>
                taken == Write(old(urgent)[0]) && urgent == old(urgent)[1..] && urgentBudget == old(urgentBudget) + 1
      ensures !old(closed) && old(critical) == [] && old(normal) != [] && (old(urgentBudget) >= 32 || old(urgent) == []) ==>
                taken == Write(old(normal)[0]) && normal == old(normal)[1..] && urgentBudget == 0
    {
      hide Consistent;
      if closed {
        return Stop;
      }
      if |critical| == 0 && |urgent| == 0 && |normal| == 0 {
        return Wait;
      }
      PoppedIsConsistent(View(), LIMITS);
      var item;
      if |critical| > 0 {
        item := critical[0];
        critical := critical[1..];
      } else if |urgent| > 0 && (urgentBudget < 32 || |normal| == 0) {
        item := urgent[0];
        urgent := urgent[1..];
        urgentBudget := urgentBudget + 1;
      } else {
        item := normal[0];
        normal := normal[1..];
        urgentBudget := 0;
      }
      queuedCount := queuedCount - 1;
      queuedBytes := queuedBytes - item.size;
      return Write(item);
    }

    /** The caller completes `pending` with the closed error. */
    method Close() returns (pending: seq<Item<Queued>>)
      requires Valid()
      modifies this
      ensures Valid()
      ensures pending == old(critical) + old(urgent) + old(normal) && View() == old(View()).Shut()
    {
      pending := critical + urgent + normal;
      closed := true;
      critical, urgent, normal := [], [], [];
      queuedCount, queuedBytes := 0, 0;
      EmptyIsConsistent(View(), LIMITS);
    }

    /** The caller completes `pending` with the write error and calls onError, unless the queue was closed already. */
    method Fail() returns (first: bool, pending: seq<Item<Queued>>)
      requires Valid()
      modifies this
      ensures Valid()
      ensures first == !old(closed)
      ensures pending == if first then old(critical) + old(urgent) + old(normal) else []
      ensures View() == if first then old(View()).Shut() else old(View())
    {
      if closed {
        return false, [];
      }
      pending := Close();
      first := true;
    }
  }

  // ---------- completions, over every interleaving ----------

  type Entry = Item<Queued>

  /** The goroutine that writes the queue out. */
  datatype Runner = Idle | Writing(item: Entry) | Failing | Stopped

  /** `owedClosed` and `owedFailed` were drained from the queue and are not completed yet; the last three
      fields are the completions. */
  datatype State = State(
    queue: Queue<Queued>, runner: Runner,
    accepted: multiset<Entry>, owedClosed: multiset<Entry>, owedFailed: multiset<Entry>,
    written: multiset<Entry>, closedOut: multiset<Entry>, failedOut: multiset<Entry>,
    errors: nat)

  datatype Step =
    | Enqueue(value: Queued)
    | Take
    | Wrote(ok: bool)
    | Fail
    | Close
    | CompleteClosed(item: Entry)
    | CompleteFailed(item: Entry)

  /** A new queue, whose writer waits. */
  ghost predicate Initial(s: State) {
    && s.queue.Empty() && s.queue.count == 0 && s.queue.bytes == 0 && !s.queue.closed
    && s.runner.Idle? && s.errors == 0
    && s.accepted == multiset{}
    && s.owedClosed == multiset{} && s.owedFailed == multiset{}
    && s.written == multiset{} && s.closedOut == multiset{} && s.failedOut == multiset{}
  }

  function Next(s: State, step: Step): State {
    match step
    case Enqueue(value) =>
      if Refused(s.queue, value).Some? || ItemOf(value) in s.accepted then s
      else s.(queue := s.queue.Put(LaneOf(value.message), ItemOf(value)), accepted := s.accepted + multiset{ItemOf(value)})
    case Take =>
      if !s.runner.Idle? then s
      else if s.queue.closed then s.(runner := Stopped)
      else if s.queue.Empty() then s
      else s.(queue := s.queue.Popped(), runner := Writing(s.queue.Head()))
    case Wrote(ok) =>
      if s.runner.Writing? then
        s.(written := s.written + multiset{s.runner.item}, runner := if ok then Idle else Failing)
      else s
    case Fail =>
      if !s.runner.Failing? then s
      else if s.queue.closed then s.(runner := Stopped)
      else s.(queue := s.queue.Shut(), owedFailed := s.owedFailed + multiset(Pending(s.queue)),
                runner := Stopped, errors := s.errors + 1)
    case Close =>
      s.(queue := s.queue.Shut(), owedClosed := s.owedClosed + multiset(Pending(s.queue)))
    case CompleteClosed(item) =>
      if item in s.owedClosed then
        s.(owedClosed := s.owedClosed - multiset{item}, closedOut := s.closedOut + multiset{item})
      else s
    case CompleteFailed(item) =>
      if item in s.owedFailed then
        s.(owedFailed := s.owedFailed - multiset{item}, failedOut := s.failedOut + multiset{item})
      else s
  }

  function Run(s: State, steps: seq<Step>): State {
    if steps == [] then s else Next(Run(s, steps[..|steps| - 1]), steps[|steps| - 1])
  }

  function CountIn(items: seq<Entry>, x: Entry): nat {
    multiset(items)[x]
  }

  function Held(q: Queue<Queued>, x: Entry): nat {
    CountIn(q.critical, x) + CountIn(q.urgent, x) + CountIn(q.normal, x)
  }

  function InWriter(s: State, x: Entry): nat {
    if s.runner == Writing(x) then 1 else 0
  }

  function Completed(s: State, x: Entry): nat {
    s.written[x] + s.closedOut[x] + s.failedOut[x]
  }

  /** An item is in exactly one place from the moment it is accepted. */
  ghost predicate Placed(s: State, x: Entry) {
    && s.accepted[x] <= 1
    && s.accepted[x] == Held(s.queue, x) + InWriter(s, x) + s.owedClosed[x] + s.owedFailed[x] + Completed(s, x)
  }

  ghost predicate Sound(s: State) {
    && Consistent(s.queue, LIMITS)
    && (s.queue.closed ==> s.queue.Empty())
    && s.errors <= 1 && (s.errors == 1 ==> s.queue.closed && s.runner.Stopped?)
  }

  lemma PutHolds(q: Queue<Queued>, lane: Lane, item: Entry, x: Entry)
    ensures Held(q.Put(lane, item), x) == Held(q, x) + if x == item then 1 else 0
  {
  }

  lemma PoppedHolds(q: Queue<Queued>, x: Entry)
    requires !q.Empty()
    ensures Held(q, x) == Held(q.Popped(), x) + if x == q.Head() then 1 else 0
  {
    var lane := q.In(q.Pick());
    assert lane == [lane[0]] + lane[1..];
  }

  lemma PendingHolds(q: Queue<Queued>, x: Entry)
    ensures CountIn(Pending(q), x) == Held(q, x)
  {
  }

  lemma EnqueuePlaced(s: State, value: Queued, x: Entry)
    requires Placed(s, x)
    ensures Placed(Next(s, Step.Enqueue(value)), x)
  {
    PutHolds(s.queue, LaneOf(value.message), ItemOf(value), x);
  }

  lemma TakePlaced(s: State, x: Entry)
    requires Placed(s, x)
    ensures Placed(Next(s, Take), x)
  {
    if !s.queue.Empty() { PoppedHolds(s.queue, x); }
  }

  lemma ShutPlaced(s: State, step: Step, x: Entry)
    requires Placed(s, x) && (step.Fail? || step.Close?)
    ensures Placed(Next(s, step), x)
  {
    PendingHolds(s.queue, x);
  }

  lemma WrotePlaced(s: State, ok: bool, x: Entry)
    requires Placed(s, x)
    ensures Placed(Next(s, Wrote(ok)), x)
  {
  }

  lemma CompleteClosedPlaced(s: State, item: Entry, x: Entry)
    requires Placed(s, x)
    ensures Placed(Next(s, CompleteClosed(item)), x)
  {
  }

  lemma CompleteFailedPlaced(s: State, item: Entry, x: Entry)
    requires Placed(s, x)
    ensures Placed(Next(s, CompleteFailed(item)), x)
  {
  }

  lemma NextPlaced(s: State, step: Step, x: Entry)
    requires Placed(s, x)
    ensures Placed(Next(s, step), x)
  {
    if step.Enqueue? { EnqueuePlaced(s, step.value, x); }
    else if step.Take? { TakePlaced(s, x); }
    else if step.Fail? || step.Close? { ShutPlaced(s, step, x); }
    else if step.Wrote? { WrotePlaced(s, step.ok, x); }
    else if step.CompleteClosed? { CompleteClosedPlaced(s, step.item, x); }
    else { CompleteFailedPlaced(s, step.item, x); }
  }

  lemma NextSound(s: State, step: Step)
    requires Sound(s)
    ensures Sound(Next(s, step))
  {
    match step
    case Enqueue(value) =>
      if Refused(s.queue, value).None? {
        PutIsConsistent(s.queue, LaneOf(value.message), ItemOf(value), LIMITS);
      }
    case Take => if !s.queue.Empty() { PoppedIsConsistent(s.queue, LIMITS); }
    case Fail => EmptyIsConsistent(s.queue.Shut(), LIMITS);
    case Close => EmptyIsConsistent(s.queue.Shut(), LIMITS);
    case _ =>
  }

  lemma StartInv(s: State, x: Entry)
    requires Initial(s)
    ensures Sound(s) && Placed(s, x)
  {
    EmptyIsConsistent(s.queue, LIMITS);
  }

  lemma {:induction false} RunInv(s: State, steps: seq<Step>, x: Entry)
    requires Sound(s) && Placed(s, x)
    ensures Sound(Run(s, steps)) && Placed(Run(s, steps), x)
  {
    if steps != [] {
      RunInv(s, steps[..|steps| - 1], x);
      NextSound(Run(s, steps[..|steps| - 1]), steps[|steps| - 1]);
      NextPlaced(Run(s, steps[..|steps| - 1]), steps[|steps| - 1], x);
    }
  }

  /** In every reachable state the counters equal what the lanes hold and the backlog of urgent and normal
      messages is within both limits. The error handler ran at most once. */
  lemma {:induction false} CountersAreExact(start: State, steps: seq<Step>)
    requires Initial(start)
    ensures Consistent(Run(start, steps).queue, LIMITS) && Run(start, steps).errors <= 1
  {
    var x := ItemOf(Queued(Message.Message(Other, 0), 0, false));
    StartInv(start, x);
    RunInv(start, steps, x);
  }

  lemma FinishedIsCompleted(s: State, x: Entry)
    requires Sound(s) && Placed(s, x)
    requires s.queue.closed && s.runner.Stopped? && s.owedClosed == multiset{} && s.owedFailed == multiset{}
    ensures Completed(s, x) == s.accepted[x]
  {
  }

  /** No item is completed twice, and when the queue is closed, the writer has stopped and nothing drained
      is left to complete, each accepted item was completed exactly once: written, closed or failed. */
  lemma {:induction false} CompletedExactlyOnce(start: State, steps: seq<Step>, x: Entry)
    requires Initial(start)
    ensures var s := Run(start, steps);
            && Completed(s, x) <= s.accepted[x] <= 1
            && (s.queue.closed && s.runner.Stopped? && s.owedClosed == multiset{} && s.owedFailed == multiset{} ==>
                  Completed(s, x) == s.accepted[x])
  {
    StartInv(start, x);
    RunInv(start, steps, x);
    var s := Run(start, steps);
    if s.queue.closed && s.runner.Stopped? && s.owedClosed == multiset{} && s.owedFailed == multiset{} {
      FinishedIsCompleted(s, x);
    }
  }
}
