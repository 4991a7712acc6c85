/** Visitor requests of one data channel and their two-level slot accounting
    (client/agent/visitor_stream.go, visitor_limits.go). */
module VisitorStreams {
  import opened Options

  const MAX_REQUEST_BYTES: nat := 16 * 1024 * 1024
  const MAX_VISITOR_STREAMS: nat := 4096
  const MAX_TOTAL_STREAMS: nat := 16384

  type Id = string
  type Bytes = seq<bv8>

  datatype Refusal = MissingField | Canceled | DuplicateId | TooMany

  datatype Request = Request(verb: string, path: string, body: Bytes)

  datatype ChunkResult = Stored | InvalidChunk | NotStarted | TooLarge

  /** A buffered channel of empty values used as a counting semaphore. */
  class Slots {
    const capacity: nat
    var used: nat

    constructor (capacity: nat)
      ensures this.capacity == capacity && used == 0
    {
      this.capacity, used := capacity, 0;
    }

    method TryAcquire() returns (ok: bool)
      modifies this
      ensures ok == (old(used) < capacity)
      ensures used == if ok then old(used) + 1 else old(used)
    {
      ok := used < capacity;
      if ok { used := used + 1; }
    }

    /** A receive; the precondition says that it does not block. */
    method Release()
      requires used > 0
      modifies this
      ensures used == old(used) - 1
    {
      used := used - 1;
    }
  }

  class DataSession {
    var closed: bool
    var requests: map<Id, Request>
    const slots: Slots
    const globalSlots: Slots
    ghost var workers: nat  // workers that hold a slot of this session

    ghost predicate Valid()
      reads this, slots, globalSlots
    {
      && slots != globalSlots
      && slots.used == |requests| + workers
      && slots.used <= globalSlots.used
      && slots.used <= slots.capacity == MAX_VISITOR_STREAMS
      && (forall id | id in requests :: |requests[id].body| <= MAX_REQUEST_BYTES)
      && (closed ==> requests == map[])
    }

    constructor (globalSlots: Slots)
      ensures Valid() && fresh(slots) && this.globalSlots == globalSlots
      ensures !closed && requests == map[] && workers == 0 && slots.capacity == 4096
    {
      this.globalSlots := globalSlots;
      slots := new Slots(MAX_VISITOR_STREAMS);
      closed, requests, workers := false, map[], 0;
    }

    method ReserveSlotLocked() returns (ok: bool)
      requires slots != globalSlots
      modifies slots, globalSlots
      ensures ok == (old(slots.used) < slots.capacity && old(globalSlots.used) < globalSlots.capacity)
      ensures slots.used == old(slots.used) + (if ok then 1 else 0)
      ensures globalSlots.used == old(globalSlots.used) + (if ok then 1 else 0)
    {
      ok := slots.TryAcquire();
      if !ok {
        return;
      }
      ok := globalSlots.TryAcquire();
      if !ok {
        slots.Release();
      }
    }

    /** A request that came in one frame: its worker holds the slot. */
    method ReserveSlot() returns (ok: bool)
      requires Valid()
      modifies this`workers, slots, globalSlots
      ensures Valid()
      ensures ok == (!closed && old(slots.used) < slots.capacity && old(globalSlots.used) < globalSlots.capacity)
      ensures workers == old(workers) + (if ok then 1 else 0)
      ensures globalSlots.used == old(globalSlots.used) + (if ok then 1 else 0)
    {
      if closed {
        return false;
      }
      ok := ReserveSlotLocked();
      if ok { workers := workers + 1; }
    }

    /** A worker ends. */
    method ReleaseSlot()
      requires Valid() && workers > 0
      modifies this`workers, slots, globalSlots
      ensures Valid() && workers == old(workers) - 1
      ensures globalSlots.used == old(globalSlots.used) - 1
    {
      slots.Release();
      globalSlots.Release();
      workers := workers - 1;
    }

    method Start(id: Id, verb: string, path: string) returns (refused: Option<Refusal>)
      requires Valid()
      modifies this`requests, slots, globalSlots
      ensures Valid()
      ensures refused ==
                if id == "" || verb == "" then Some(MissingField)
                else if closed then Some(Canceled)
                else if id in old(requests) then Some(DuplicateId)
                else if old(slots.used) >= slots.capacity || old(globalSlots.used) >= globalSlots.capacity then Some(TooMany)
                else None
      ensures requests == if refused.None? then old(requests)[id := Request(verb, path, [])] else old(requests)
      ensures globalSlots.used == old(globalSlots.used) + (if refused.None? then 1 else 0)
    {
      if id == "" || verb == "" {
        return Some(MissingField);
      }
      if closed {
        return Some(Canceled);
      }
      if id in requests {
        return Some(DuplicateId);
      }
      var ok := ReserveSlotLocked();
      if !ok {
        return Some(TooMany);
      }
      requests := requests[id := Request(verb, path, [])];
      return None;
    }

    /** `decoded` is the chunk after base64 decoding, if that succeeds. */
    method Chunk(id: Id, decoded: Option<Bytes>) returns (result: ChunkResult)
      requires Valid()
      modifies this`requests, slots, globalSlots
      ensures Valid()
      ensures result ==
                if decoded.None? then InvalidChunk
                else if id !in old(requests) then NotStarted
                else if |old(requests)[id].body| + |decoded.value| > 16777216 then TooLarge
                else Stored
      ensures requests ==
                match result
                case Stored => (var r := old(requests)[id]; old(requests)[id := r.(body := r.body + decoded.value)])
                case NotStarted => old(requests)
                case _ => old(requests) - {id}
      ensures globalSlots.used == old(globalSlots.used) - (|old(requests)| - |requests|)
    {
      if decoded.None? {
        Remove(id);
        return InvalidChunk;
      }
      if id !in requests {
        return NotStarted;
      }
      var request := requests[id];
      if |request.body| + |decoded.value| > MAX_REQUEST_BYTES {
        Remove(id);
        return TooLarge;
      }
      assert |requests[id := request.(body := request.body + decoded.value)]| == |requests|;
      requests := requests[id := request.(body := request.body + decoded.value)];
      return Stored;
    }

    /** removeAndError */
    method Remove(id: Id)
      requires Valid()
      modifies this`requests, slots, globalSlots
      ensures Valid()
      ensures requests == old(requests) - {id}
      ensures globalSlots.used == old(globalSlots.used) - (|old(requests)| - |requests|)
    {
      if id in requests {
        RemovedOne(requests, id);
        requests := requests - {id};
        slots.Release();
        globalSlots.Release();
      } else {
        assert requests - {id} == requests;
      }
    }

    /** The slot of the request goes over to the worker that executes it. */
    method End(id: Id) returns (request: Option<Request>)
      requires Valid()
      modifies this`requests, this`workers
      ensures Valid()
      ensures request == if id in old(requests) then Some(old(requests)[id]) else None
      ensures requests == old(requests) - {id}
      ensures workers == old(workers) + (if request.Some? then 1 else 0)
    {
      if id !in requests {
        assert requests - {id} == requests;
        return None;
      }
      request := Some(requests[id]);
      RemovedOne(requests, id);
      requests := requests - {id};
      workers := workers + 1;
    }

    method Close()
      requires Valid()
      modifies this`closed, this`requests, slots, globalSlots
      ensures Valid() && closed && requests == map[]
      ensures globalSlots.used == old(globalSlots.used) - |old(requests)|
    {
      if closed {
        return;
      }
      closed := true;
      var pending := |requests|;
      requests := map[];
      for i := 0 to pending
        invariant slots.used == old(slots.used) - i && globalSlots.used == old(globalSlots.used) - i
        modifies slots, globalSlots
      {
        slots.Release();
        globalSlots.Release();
      }
    }
  }

  lemma RemovedOne<K, V>(m: map<K, V>, k: K)
    requires k in m
    ensures |m - {k}| == |m| - 1
  {
    assert (m - {k}).Keys == m.Keys - {k};
  }

  // ---------- all sessions, over every interleaving ----------

  /** What a slot is being reserved for, while the session's lock is held. */
  datatype Purpose = ForRequest(id: Id) | ForWorker

  /** `held` counts the goroutines that will still receive from both channels, `half` those that have
      received from the session's own and not yet from the global one. */
  datatype Session = Session(
    closed: bool, requests: map<Id, nat>, slots: nat, reserving: Option<Purpose>, held: nat, half: nat)

  datatype State = State(sessions: seq<Session>, globalUsed: nat)

  datatype Step =
    | NewSession
    | Reserve(i: nat, purpose: Purpose)   // the send to the session's slots
    | ReserveGlobal(i: nat)               // the send to the global slots
    | Grow(i: nat, id: Id, bytes: nat)
    | Detach(i: nat, id: Id)              // end, or removeAndError
    | Shut(i: nat)
    | Receive(i: nat)
    | ReceiveGlobal(i: nat)

  const NEW := Session(false, map[], 0, None, 0, 0)

  function With(s: State, i: nat, session: Session): State
    requires i < |s.sessions|
  {
    s.(sessions := s.sessions[i := session])
  }

  /** A step that is not enabled, or would block, leaves the state as it is. */
  function Next(s: State, step: Step): State {
    if step.NewSession? then s.(sessions := s.sessions + [NEW])
    else if step.i >= |s.sessions| then s
    else
      var d := s.sessions[step.i];
      match step
      case Reserve(i, purpose) =>
        if d.reserving.Some? || d.closed || d.slots >= MAX_VISITOR_STREAMS then s
        else if purpose.ForRequest? && (purpose.id == "" || purpose.id in d.requests) then s
        else With(s, i, d.(slots := d.slots + 1, reserving := Some(purpose)))
      case ReserveGlobal(i) =>
        if d.reserving.None? then s
        else if s.globalUsed >= MAX_TOTAL_STREAMS then
          if d.slots == 0 then s else With(s, i, d.(slots := d.slots - 1, reserving := None))
        else
          With(s, i,
               if d.reserving.value.ForRequest?
               then d.(reserving := None, requests := d.requests[d.reserving.value.id := 0])
               else d.(reserving := None, held := d.held + 1)).(globalUsed := s.globalUsed + 1)
      case Grow(i, id, bytes) =>
        if d.reserving.None? && id in d.requests && d.requests[id] + bytes <= MAX_REQUEST_BYTES
        then With(s, i, d.(requests := d.requests[id := d.requests[id] + bytes])) else s
      case Detach(i, id) =>
        if d.reserving.None? && id in d.requests
        then With(s, i, d.(requests := d.requests - {id}, held := d.held + 1)) else s
      case Shut(i) =>
        if d.reserving.None? && !d.closed
        then With(s, i, d.(closed := true, requests := map[], held := d.held + |d.requests|)) else s
      case Receive(i) =>
        if d.held > 0 && d.slots > 0 then With(s, i, d.(held := d.held - 1, slots := d.slots - 1, half := d.half + 1)) else s
      case ReceiveGlobal(i) =>
        if d.half > 0 && s.globalUsed > 0 then With(s, i, d.(half := d.half - 1)).(globalUsed := s.globalUsed - 1) else s
  }

  function Run(s: State, steps: seq<Step>): State {
    if steps == [] then s else Next(Run(s, steps[..|steps| - 1]), steps[|steps| - 1])
  }

  /** The reservation of the class, uninterrupted, as two steps of the machine: both slots or neither, and for a
      request its entry. */
  lemma UninterruptedReserve(s: State, i: nat, purpose: Purpose)
    requires i < |s.sessions| && s.sessions[i].reserving.None?
    ensures var d := s.sessions[i];
            var ok := && !d.closed && d.slots < 4096 && s.globalUsed < 16384
                      && (purpose.ForRequest? ==> purpose.id != "" && purpose.id !in d.requests);
            var k := Next(Next(s, Reserve(i, purpose)), ReserveGlobal(i));
            && k.globalUsed == s.globalUsed + (if ok then 1 else 0)
            && k.sessions == s.sessions[i :=
                 if !ok then d
                 else if purpose.ForRequest? then d.(slots := d.slots + 1, requests := d.requests[purpose.id := 0])
                 else d.(slots := d.slots + 1, held := d.held + 1)]
  {
  }

  const EMPTY := State([], 0)

  /** The global slots that a session accounts for. */
  function Share(d: Session): nat {
    |d.requests| + d.held + d.half
  }

  function Shares(sessions: seq<Session>): nat {
    if sessions == [] then 0 else Shares(sessions[..|sessions| - 1]) + Share(sessions[|sessions| - 1])
  }

  ghost predicate Balanced(d: Session) {
    && d.slots == |d.requests| + d.held + (if d.reserving.Some? then 1 else 0)
    && d.slots <= MAX_VISITOR_STREAMS
    && (d.closed ==> d.requests == map[] && d.reserving.None?)
    && (d.reserving.Some? && d.reserving.value.ForRequest? ==> d.reserving.value.id !in d.requests)
    && forall id | id in d.requests :: d.requests[id] <= MAX_REQUEST_BYTES
  }

  ghost predicate Inv(s: State) {
    && s.globalUsed == Shares(s.sessions) <= MAX_TOTAL_STREAMS
    && forall d <- s.sessions :: Balanced(d)
  }

  lemma {:induction false} SharesOfUpdate(sessions: seq<Session>, i: nat, d: Session)
    requires i < |sessions|
    ensures Shares(sessions[i := d]) == Shares(sessions) - Share(sessions[i]) + Share(d)
    ensures Shares(sessions) >= Share(sessions[i])
  {
    var last := |sessions| - 1;
    if i == last {
      assert sessions[i := d][..last] == sessions[..last];
    } else {
      assert sessions[i := d][..last] == sessions[..last][i := d];
      SharesOfUpdate(sessions[..last], i, d);
    }
  }

  /** One session's books after a step of its own; `granted` tells whether a global slot is free. */
  lemma StepBalanced(s: State, step: Step)
    requires Inv(s) && !step.NewSession? && step.i < |s.sessions|
    ensures |Next(s, step).sessions| == |s.sessions|
    ensures Balanced(Next(s, step).sessions[step.i])
    ensures forall j | 0 <= j < |s.sessions| && j != step.i :: Next(s, step).sessions[j] == s.sessions[j]
  {
    var d := s.sessions[step.i];
    assert Balanced(d);
    if step.Detach? && step.id in d.requests { RemovedOne(d.requests, step.id); }
    if step.Grow? && step.id in d.requests {
      assert |d.requests[step.id := d.requests[step.id] + step.bytes]| == |d.requests|;
    }
  }

  /** A step changes the global count by as much as the share of its session. */
  lemma StepShare(s: State, step: Step)
    requires !step.NewSession? && step.i < |s.sessions| && Balanced(s.sessions[step.i])
    ensures |Next(s, step).sessions| == |s.sessions|
    ensures Share(Next(s, step).sessions[step.i]) + s.globalUsed == Share(s.sessions[step.i]) + Next(s, step).globalUsed
    ensures s.globalUsed <= MAX_TOTAL_STREAMS ==> Next(s, step).globalUsed <= MAX_TOTAL_STREAMS
  {
    var d := s.sessions[step.i];
    if step.Detach? && step.id in d.requests { RemovedOne(d.requests, step.id); }
    if step.Grow? && step.id in d.requests {
      assert |d.requests[step.id := d.requests[step.id] + step.bytes]| == |d.requests|;
    }
  }

  lemma StepShares(s: State, step: Step)
    requires Inv(s) && !step.NewSession? && step.i < |s.sessions|
    ensures Next(s, step).globalUsed == Shares(Next(s, step).sessions) <= MAX_TOTAL_STREAMS
  {
    var k := Next(s, step);
    StepBalanced(s, step);
    StepShare(s, step);
    SharesOfUpdate(s.sessions, step.i, k.sessions[step.i]);
    assert k.sessions == s.sessions[step.i := k.sessions[step.i]];
  }

  lemma NextInv(s: State, step: Step)
    requires Inv(s)
    ensures Inv(Next(s, step))
  {
    var k := Next(s, step);
    if step.NewSession? {
      assert k.sessions[..|s.sessions|] == s.sessions;
    } else if step.i < |s.sessions| {
      StepBalanced(s, step);
      StepShares(s, step);
      forall d | d in k.sessions ensures Balanced(d) {
        var j :| 0 <= j < |k.sessions| && k.sessions[j] == d;
        if j != step.i { assert s.sessions[j] in s.sessions; }
      }
    }
  }

  lemma {:induction false} RunInv(steps: seq<Step>)
    ensures Inv(Run(EMPTY, steps))
  {
    if steps != [] {
      RunInv(steps[..|steps| - 1]);
      NextInv(Run(EMPTY, steps[..|steps| - 1]), steps[|steps| - 1]);
    }
  }

  /** In every reachable state a session's slot count is its open requests plus its running workers (and the
      reservation under way), the global count is the sum over the sessions plus the receives still to
      come, and both are within their limits. */
  lemma {:induction false} SlotsAreConserved(steps: seq<Step>, i: nat)
    ensures var s := Run(EMPTY, steps);
            && s.globalUsed == Shares(s.sessions) <= 16384
            && (i < |s.sessions| ==>
                  var d := s.sessions[i];
                  && d.slots == |d.requests| + d.held + (if d.reserving.Some? then 1 else 0) <= 4096
                  && (d.closed ==> d.requests == map[]))
  {
    RunInv(steps);
    if i < |Run(EMPTY, steps).sessions| { assert Balanced(Run(EMPTY, steps).sessions[i]); }
  }

  /** No receive ever blocks on an empty channel: a goroutine that is to receive from a session's slots or
      from the global ones finds a value there, and so does a reservation that has to be undone. */
  lemma {:induction false} ReceivesNeverBlock(steps: seq<Step>, i: nat)
    requires i < |Run(EMPTY, steps).sessions|
    ensures var s := Run(EMPTY, steps);
            var d := s.sessions[i];
            && (d.held > 0 || d.reserving.Some? ==> d.slots > 0)
            && (d.half > 0 ==> s.globalUsed > 0)
  {
    RunInv(steps);
    var s := Run(EMPTY, steps);
    assert Balanced(s.sessions[i]);
    SharesOfUpdate(s.sessions, i, s.sessions[i]);
  }

  /** A request that is removed, and whose goroutine then receives from both channels, gives back one slot of each and
      changes nothing else. */
  lemma {:induction false} UninterruptedRelease(steps: seq<Step>, i: nat, id: Id)
    requires var s := Run(EMPTY, steps);
             i < |s.sessions| && s.sessions[i].reserving.None? && id in s.sessions[i].requests
    ensures var s := Run(EMPTY, steps);
            var d := s.sessions[i];
            var k := Next(Next(Next(s, Detach(i, id)), Receive(i)), ReceiveGlobal(i));
            && d.slots > 0 && s.globalUsed > 0 && k.globalUsed == s.globalUsed - 1
            && k.sessions == s.sessions[i := d.(requests := d.requests - {id}, slots := d.slots - 1)]
  {
    hide Run;
    RunInv(steps);
    var s := Run(EMPTY, steps);
    assert Balanced(s.sessions[i]);
    SharesOfUpdate(s.sessions, i, s.sessions[i]);
  }

  lemma {:induction false} NoShares(sessions: seq<Session>)
    requires forall d <- sessions :: Share(d) == 0
    ensures Shares(sessions) == 0
  {
    if sessions != [] {
      NoShares(sessions[..|sessions| - 1]);
      assert Share(sessions[|sessions| - 1]) == 0;
    }
  }

  /** Closing a session and letting its workers end returns all its slots, and when every session is closed
      and drained the global count is zero, however the steps interleaved. */
  lemma {:induction false} ClosedAndDrainedIsZero(steps: seq<Step>, i: nat)
    requires i < |Run(EMPTY, steps).sessions|
    requires var d := Run(EMPTY, steps).sessions[i]; d.closed && d.held == 0
    ensures Run(EMPTY, steps).sessions[i].slots == 0
    ensures (forall d <- Run(EMPTY, steps).sessions :: d.closed && d.held == 0 && d.half == 0) ==>
              Run(EMPTY, steps).globalUsed == 0
  {
    RunInv(steps);
    var s := Run(EMPTY, steps);
    assert Balanced(s.sessions[i]);
    if forall d <- s.sessions :: d.closed && d.held == 0 && d.half == 0 {
      forall d | d in s.sessions ensures Share(d) == 0 { assert Balanced(d); }
      NoShares(s.sessions);
    }
  }
}
