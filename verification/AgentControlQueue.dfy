/** The agent's control write queue (client/agent/control_write_queue.go): the same scheduler, without
    completions and with at most one heartbeat waiting. */
module AgentControlQueue {
  import opened Options
  import opened ControlLanes

  /** Anything can be queued; only control messages have a type and a known length. */
  datatype Value = Control(kind: Kind, payloadLength: nat) | Opaque(tag: nat)

  datatype Refusal = QueueClosed | QueueFull

  const LIMITS := Limits(65536, 268435456)

  function ValueSize(v: Value): nat {
    if v.Control? then v.payloadLength + 128 else 256
  }

  predicate IsHeartbeat(v: Value) {
    v.Control? && v.kind == Heartbeat
  }

  predicate IsCritical(v: Value) {
    v.Control? && (v.kind == Heartbeat || v.kind == HeartbeatAck)
  }

  predicate IsUrgent(v: Value) {
    v.Control? && v.kind != HeartbeatAck && v.kind != Other
  }

  function LaneOf(v: Value): Lane {
    if IsCritical(v) then Critical else if IsUrgent(v) then Urgent else Normal
  }

  function ItemOf(v: Value): Item<Value> {
    Item(v, ValueSize(v))
  }

  datatype State = State(queue: Queue<Value>, heartbeatQueued: bool)

  function Refused(q: Queue<Value>, v: Value): Option<Refusal> {
    if q.closed then Some(QueueClosed)
    else if !IsCritical(v) && q.Full(ValueSize(v), LIMITS) then Some(QueueFull)
    else None
  }

  /** A heartbeat that finds another one waiting is reported as written. */
  function Written(s: State, v: Value): State {
    if Refused(s.queue, v).Some? || (IsHeartbeat(v) && s.heartbeatQueued) then s
    else State(s.queue.Put(LaneOf(v), ItemOf(v)), s.heartbeatQueued || IsHeartbeat(v))
  }

  function Dequeued(s: State): State {
    if s.queue.closed || s.queue.Empty() then s
    else State(s.queue.Popped(), s.heartbeatQueued && !IsHeartbeat(s.queue.Head().value))
  }

  function Shut(s: State): State {
    State(s.queue.Shut(), false)
  }

  datatype Next = Wait | Stop | Send(value: Value)

  class QueuedConn {
    var critical: seq<Item<Value>>
    var urgent: seq<Item<Value>>
    var normal: seq<Item<Value>>
    var queuedCount: int
    var queuedBytes: int
    var urgentBudget: nat
    var heartbeatQueued: bool
    var closed: bool

    function View(): State
      reads this
    {
      State(Queue(critical, urgent, normal, queuedCount, queuedBytes, urgentBudget, closed), heartbeatQueued)
    }

    constructor ()
      ensures Fresh(View())
    {
      critical, urgent, normal := [], [], [];
      queuedCount, queuedBytes, urgentBudget, heartbeatQueued, closed := 0, 0, 0, false, false;
    }

    method WriteJson(value: Value) returns (refused: Option<Refusal>)
      modifies this
      ensures refused == Refused(old(View()).queue, value)
      ensures View() == Written(old(View()), value)
      ensures var size := if value.Control? then value.payloadLength + 128 else 256;
              if old(closed) then refused == Some(QueueClosed)
              else if value.Control? && value.kind == Heartbeat then
                refused == None && heartbeatQueued &&
                critical == if old(heartbeatQueued) then old(critical) else old(critical) + [Item(value, size)]
              else if value.Control? && value.kind == HeartbeatAck then
                refused == None && critical == old(critical) + [Item(value, size)]
              else if old(queuedCount) >= 65536 || old(queuedBytes) + size > 268435456 then refused == Some(QueueFull)
              else if value.Opaque? || value.kind == Other then refused == None && normal == old(normal) + [Item(value, size)]
              else refused == None && urgent == old(urgent) + [Item(value, size)]
    {
      if closed {
        return Some(QueueClosed);
      }
      var size := ValueSize(value);
      if !IsCritical(value) && (queuedCount >= LIMITS.messages || queuedBytes + size > LIMITS.bytes) {
        return Some(QueueFull);
      }
      if IsHeartbeat(value) {
        if heartbeatQueued {
          return None;
        }
        heartbeatQueued := true;
      }
      if IsCritical(value) {
        critical := critical + [Item(value, size)];
      } else if IsUrgent(value) {
        urgent := urgent + [Item(value, size)];
      } else {
        normal := normal + [Item(value, size)];
      }
      queuedCount := queuedCount + 1;
      queuedBytes := queuedBytes + size;
      return None;
    }

    method TakeNext() returns (next: Next)
      modifies this
      ensures next == if old(closed) then Stop
                      else if old(View()).queue.Empty() then Wait
                      else Send(old(View()).queue.Head().value)
      ensures View() == Dequeued(old(View()))
      ensures !old(closed) && old(critical) != [] ==>
                next == Send(old(critical)[0].value) && critical == old(critical)[1..] && urgentBudget == old(urgentBudget)
      ensures !old(closed) && old(critical) == [] && old(urgent) != [] && (old(urgentBudget) < 32 || old(normal) == []) ==>
                next == Send(old(urgent)[0].value) && urgent == old(urgent)[1..] && urgentBudget == old(urgentBudget) + 1
      ensures !old(closed) && old(critical) == [] && old(normal) != [] && (old(urgentBudget) >= 32 || old(urgent) == []) ==>
                next == Send(old(normal)[0].value) && normal == old(normal)[1..] && urgentBudget == 0
    {
      if closed {
        return Stop;
      }
      if |critical| == 0 && |urgent| == 0 && |normal| == 0 {
        return Wait;
      }
      var item;
      if |critical| > 0 {
        item := critical[0];
        critical := critical[1..];
        CompleteDequeue(item);
      } else if |urgent| > 0 && (urgentBudget < 32 || |normal| == 0) {
        item := urgent[0];
        urgent := urgent[1..];
        CompleteDequeue(item);
        urgentBudget := urgentBudget + 1;
      } else {
        item := normal[0];
        normal := normal[1..];
        CompleteDequeue(item);
        urgentBudget := 0;
      }
      return Send(item.value);
    }

    method CompleteDequeue(item: Item<Value>)
      modifies this`queuedCount, this`queuedBytes, this`heartbeatQueued
      ensures queuedCount == old(queuedCount) - 1 && queuedBytes == old(queuedBytes) - item.size
      ensures heartbeatQueued == (old(heartbeatQueued) && !IsHeartbeat(item.value))
    {
      queuedCount := queuedCount - 1;
      queuedBytes := queuedBytes - item.size;
      if IsHeartbeat(item.value) {
        heartbeatQueued := false;
      }
    }

    method Close()
      modifies this
      ensures View() == Shut(old(View()))
      ensures closed && critical == urgent == normal == [] && queuedCount == queuedBytes == 0 && !heartbeatQueued
    {
      closed := true;
      critical, urgent, normal := [], [], [];
      queuedCount, queuedBytes, heartbeatQueued := 0, 0, false;
    }

    /** After a failed write: closes the connection unless the queue was closed already. */
    method Fail() returns (first: bool)
      modifies this
      ensures first == !old(closed)
      ensures View() == if first then Shut(old(View())) else old(View())
    {
      if closed {
        return false;
      }
      Close();
      return true;
    }
  }

  // ---------- every run ----------

  datatype Step = Write(value: Value) | Take | Close

  function After(s: State, step: Step): State {
    match step
    case Write(v) => Written(s, v)
    case Take => Dequeued(s)
    case Close => Shut(s)
  }

  function Run(s: State, steps: seq<Step>): State {
    if steps == [] then s else After(Run(s, steps[..|steps| - 1]), steps[|steps| - 1])
  }

  ghost predicate Fresh(s: State) {
    s.queue.Empty() && s.queue.count == 0 && s.queue.bytes == 0 && !s.queue.closed && !s.heartbeatQueued
  }

  function Heartbeats(items: seq<Item<Value>>): nat {
    if items == [] then 0 else (if IsHeartbeat(items[0].value) then 1 else 0) + Heartbeats(items[1..])
  }

  /** The counters are exact, the flag tells exactly whether one heartbeat waits, two never do, and no
      heartbeat is in another lane than the critical one. */
  ghost predicate Inv(s: State) {
    && Consistent(s.queue, LIMITS)
    && Heartbeats(s.queue.critical) == (if s.heartbeatQueued then 1 else 0)
    && Heartbeats(s.queue.urgent) == 0 && Heartbeats(s.queue.normal) == 0
    && (s.queue.closed ==> s.queue.Empty())
  }

  lemma {:induction false} HeartbeatsOfAppend(items: seq<Item<Value>>, item: Item<Value>)
    ensures Heartbeats(items + [item]) == Heartbeats(items) + if IsHeartbeat(item.value) then 1 else 0
  {
    if items == [] {
      assert items + [item] == [item];
    } else {
      assert (items + [item])[1..] == items[1..] + [item];
      HeartbeatsOfAppend(items[1..], item);
    }
  }

  lemma AfterInv(s: State, step: Step)
    requires Inv(s)
    ensures Inv(After(s, step))
  {
    match step
    case Write(v) =>
      if Refused(s.queue, v).None? {
        PutIsConsistent(s.queue, LaneOf(v), ItemOf(v), LIMITS);
        HeartbeatsOfAppend(s.queue.In(LaneOf(v)), ItemOf(v));
      }
    case Take =>
      if !s.queue.Empty() { PoppedIsConsistent(s.queue, LIMITS); }
    case Close => EmptyIsConsistent(s.queue.Shut(), LIMITS);
  }

  /** Over every run of a new queue. */
  lemma {:induction false} RunInv(s: State, steps: seq<Step>)
    requires Fresh(s)
    ensures Inv(Run(s, steps))
  {
    if steps == [] {
      EmptyIsConsistent(s.queue, LIMITS);
    } else {
      RunInv(s, steps[..|steps| - 1]);
      AfterInv(Run(s, steps[..|steps| - 1]), steps[|steps| - 1]);
    }
  }

  /** Dropping a heartbeat loses none: in an open queue, after a heartbeat was written exactly one waits. */
  lemma {:induction false} OneHeartbeatWaits(s: State, steps: seq<Step>, payloadLength: nat)
    requires Fresh(s) && !Run(s, steps).queue.closed
    ensures Heartbeats(Written(Run(s, steps), Control(Heartbeat, payloadLength)).queue.critical) == 1
  {
    RunInv(s, steps);
    AfterInv(Run(s, steps), Write(Control(Heartbeat, payloadLength)));
  }
}
