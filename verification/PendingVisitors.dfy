/** Visitors waiting for a data channel (server/relay/broker.go, connection_failures.go and the
    pending half of client_connections.go and work_connections.go).

    The broker's lock protects the pending map. A waiting visitor leaves it when a data channel, a
    QUIC stream or a work connection claims it, when its agent or an administrator fails it, or when
    its own timer cancels it. Claiming and failing are followed, outside the lock, by one value
    sent to the visitor's `done` channel, which holds one value. */
module PendingVisitors {
  import opened Options

  type RequestId = string
  type ClientId = nat
  type Generation = nat

  datatype Completion = Relayed(result: int) | AgentFailed(cause: int) | ClientDisconnected

  datatype Refusal = RequestIdRequired | DuplicateRequest | RequestNotFound | WrongClient

  // ---------- the broker ----------

  class PendingConn {
    const requestID: RequestId
    const clientID: ClientId
    var generation: Generation
    var done: seq<Completion>   // a channel with room for one value
    var paired: nat             // how often the channel was closed
    var visitorClosed: bool

    constructor (requestID: RequestId, clientID: ClientId)
      ensures this.requestID == requestID && this.clientID == clientID
      ensures Fresh()
    {
      this.requestID, this.clientID := requestID, clientID;
      generation, done, paired, visitorClosed := 0, [], 0, false;
    }

    ghost predicate Fresh()
      reads this
    {
      done == [] && paired == 0 && !visitorClosed
    }

    /** select { case done <- value: default: } */
    method TrySend(value: Completion)
      modifies this`done
      ensures done == if old(done) == [] then [value] else old(done)
    {
      if |done| < 1 {
        done := done + [value];
      }
    }
  }

  class Broker {
    var pending: map<RequestId, PendingConn>

    ghost predicate Valid()
      reads this, pending.Values
    {
      forall r | r in pending :: pending[r].requestID == r && pending[r].Fresh()
    }

    constructor ()
      ensures Valid() && pending == map[]
    {
      pending := map[];
    }

    method RegisterPending(requestID: RequestId, clientID: ClientId) returns (r: Result<PendingConn, Refusal>)
      requires Valid()
      modifies this
      ensures Valid()
      ensures requestID == "" ==> r == Err(RequestIdRequired)
      ensures requestID != "" && requestID in old(pending) ==> r == Err(DuplicateRequest)
      ensures r.Err? ==> pending == old(pending)
      ensures requestID != "" && requestID !in old(pending) ==>
                r.Ok? && fresh(r.value) && r.value.clientID == clientID && pending == old(pending)[requestID := r.value]
    {
      if requestID == "" {
        return Err(RequestIdRequired);
      }
      var entry := new PendingConn(requestID, clientID);
      if requestID in pending {
        return Err(DuplicateRequest);
      }
      pending := pending[requestID := entry];
      return Ok(entry);
    }

    /** On success the caller relays and then sends the result to `done`. */
    method ClaimPendingForClient(clientID: ClientId, requestID: RequestId, generation: Generation)
      returns (r: Result<PendingConn, Refusal>)
      requires Valid()
      modifies this, pending.Values
      ensures Valid()
      ensures requestID !in old(pending) ==> r == Err(RequestNotFound)
      ensures requestID in old(pending) && old(pending)[requestID].clientID != clientID ==> r == Err(WrongClient)
      ensures r.Err? ==> pending == old(pending)
      ensures requestID in old(pending) && old(pending)[requestID].clientID == clientID ==>
                && r == Ok(old(pending)[requestID]) && pending == old(pending) - {requestID}
                && r.value.generation == generation && r.value.paired == 1 && r.value.done == []
                && !r.value.visitorClosed
      ensures forall p <- old(pending).Values :: !(r.Ok? && r.value == p) ==> unchanged(p)
    {
      if requestID !in pending {
        return Err(RequestNotFound);
      }
      var entry := pending[requestID];
      if entry.clientID != clientID {
        return Err(WrongClient);
      }
      entry.generation := generation;
      pending := pending - {requestID};
      entry.paired := entry.paired + 1;
      return Ok(entry);
    }

    method CancelPending(requestID: RequestId, entry: PendingConn) returns (won: bool)
      requires Valid()
      modifies this
      ensures Valid()
      ensures won == (requestID in old(pending) && old(pending)[requestID] == entry)
      ensures pending == if won then old(pending) - {requestID} else old(pending)
    {
      if requestID !in pending || pending[requestID] != entry {
        return false;
      }
      pending := pending - {requestID};
      return true;
    }

    /** The timer branch of Wait: gives up and closes the visitor exactly when it wins; otherwise a completion is owed
        and Wait goes on to receive it. */
    method WaitTimesOut(requestID: RequestId, entry: PendingConn) returns (gaveUp: bool)
      requires Valid()
      modifies this, entry`visitorClosed
      ensures Valid()
      ensures gaveUp == (requestID in old(pending) && old(pending)[requestID] == entry)
      ensures pending == if gaveUp then old(pending) - {requestID} else old(pending)
      ensures entry.visitorClosed == (gaveUp || old(entry.visitorClosed))
    {
      gaveUp := CancelPending(requestID, entry);
      if !gaveUp {
        return;
      }
      entry.visitorClosed := true;
    }

    method Fail(clientID: ClientId, requestID: RequestId, cause: int)
      requires Valid()
      modifies this, pending.Values
      ensures Valid()
      ensures var hit := requestID != "" && requestID in old(pending) && old(pending)[requestID].clientID == clientID;
              && pending == (if hit then old(pending) - {requestID} else old(pending))
              && (hit ==> var p := old(pending)[requestID];
                          p.done == [AgentFailed(cause)] && p.visitorClosed && p.paired == 0)
              && forall p <- old(pending).Values :: !(hit && p == old(pending)[requestID]) ==> unchanged(p)
    {
      if requestID == "" {
        return;
      }
      if requestID in pending && pending[requestID].clientID == clientID {
        var entry := pending[requestID];
        pending := pending - {requestID};
        entry.visitorClosed := true;
        entry.TrySend(AgentFailed(cause));
      }
    }

    method FailPendingClient(clientID: ClientId)
      requires Valid()
      modifies this, pending.Values
      ensures Valid()
      ensures pending == map r | r in old(pending) && old(pending)[r].clientID != clientID :: old(pending)[r]
      ensures forall p <- old(pending).Values ::
                if p.clientID == clientID then p.done == [ClientDisconnected] && p.visitorClosed && p.paired == 0
                else unchanged(p)
    {
      var failed: set<PendingConn> := {};
      var unseen := pending.Keys;
      while unseen != {}
        invariant unseen <= old(pending).Keys && unseen <= pending.Keys
        invariant pending == map r | r in old(pending) && (r in unseen || old(pending)[r].clientID != clientID) :: old(pending)[r]
        invariant failed == set r | r in old(pending) && r !in unseen && old(pending)[r].clientID == clientID :: old(pending)[r]
        modifies this
      {
        var requestID :| requestID in unseen;
        unseen := unseen - {requestID};
        if pending[requestID].clientID == clientID {
          failed := failed + {pending[requestID]};
          pending := pending - {requestID};
        }
      }
      CompleteFailed(failed);
    }

    /** Closes and completes the visitors that were removed, in any order. */
    static method CompleteFailed(entries: set<PendingConn>)
      requires forall p <- entries :: p.Fresh()
      modifies entries
      ensures forall p <- entries :: p.done == [ClientDisconnected] && p.visitorClosed && p.paired == 0
    {
      var rest := entries;
      while rest != {}
        invariant rest <= entries
        invariant forall p <- rest :: p.Fresh()
        invariant forall p <- entries - rest :: p.done == [ClientDisconnected] && p.visitorClosed && p.paired == 0
      {
        var entry :| entry in rest;
        rest := rest - {entry};
        entry.visitorClosed := true;
        entry.TrySend(ClientDisconnected);
      }
    }
  }

  // ---------- every interleaving ----------

  /** What happened to an entry of the pending map. */
  datatype Fate = InMap | Claimed | Failed(cause: Completion) | TimedOut

  datatype Outcome = Completed(value: Completion) | DeadlineExceeded

  /** The goroutine in Broker.Wait. */
  datatype Waiter = Selecting | AwaitingDone | Returned(outcome: Outcome)

  /** `relayed` is the result of the relay, once it has ended. */
  datatype Entry = Entry(
    request: RequestId, client: ClientId,
    generation: Generation, paired: nat, done: seq<Completion>, visitorClosed: bool,
    waiter: Waiter, fate: Fate, relayed: Option<Completion>)

  type EntryId = nat  // the identity of the entry; request ids may be used again

  /** `relaying` and `failing` hold the goroutines that removed an entry and have not sent to it yet. */
  datatype State = State(
    pending: map<RequestId, EntryId>,
    entries: map<EntryId, Entry>,
    relaying: multiset<EntryId>,
    failing: multiset<EntryId>)

  datatype Step =
    | Register(id: EntryId, request: RequestId, client: ClientId)
    | Claim(client: ClientId, request: RequestId, generation: Generation)
    | EndRelay(id: EntryId, result: Completion)        // pending.done <- err
    | Fail(client: ClientId, request: RequestId, cause: int)
    | FailClient(client: ClientId)
    | SendFailure(id: EntryId)                         // select { case done <- cause: default: }
    | Receive(id: EntryId)                             // <-pending.Done()
    | SeePaired(id: EntryId)                           // <-pending.Paired()
    | Expire(id: EntryId)                              // the timer and cancelPending

  const EMPTY := State(map[], map[], multiset{}, multiset{})

  predicate Holds(s: State, request: RequestId, client: ClientId) {
    request in s.pending && s.pending[request] in s.entries && s.entries[s.pending[request]].client == client
  }

  predicate CanSend(s: State, id: EntryId) {
    id in s.entries && |s.entries[id].done| < 1
  }

  function Taken(s: State, client: ClientId): set<EntryId> {
    set r | r in s.pending && Holds(s, r, client) :: s.pending[r]
  }

  function Failing(e: Entry, cause: Completion): Entry {
    e.(fate := Failed(cause), visitorClosed := true)
  }

  /** A step that is not enabled, or would block, leaves the state as it is. */
  function Next(s: State, step: Step): State {
    match step
    case Register(id, request, client) =>
      if request == "" || request in s.pending || id in s.entries then s
      else s.(pending := s.pending[request := id],
              entries := s.entries[id := Entry(request, client, 0, 0, [], false, Selecting, InMap, None)])
    case Claim(client, request, generation) =>
      if !Holds(s, request, client) then s
      else
        var id := s.pending[request];
        var e := s.entries[id];
        s.(pending := s.pending - {request},
           entries := s.entries[id := e.(generation := generation, paired := e.paired + 1, fate := Claimed)],
           relaying := s.relaying + multiset{id})
    case EndRelay(id, result) =>
      if id in s.relaying && CanSend(s, id) then
        s.(relaying := s.relaying - multiset{id},
           entries := s.entries[id := s.entries[id].(done := [result], relayed := Some(result))])
      else s
    case Fail(client, request, cause) =>
      if request == "" || !Holds(s, request, client) then s
      else
        var id := s.pending[request];
        s.(pending := s.pending - {request},
           entries := s.entries[id := Failing(s.entries[id], AgentFailed(cause))],
           failing := s.failing + multiset{id})
    case FailClient(client) =>
      var ids := Taken(s, client);
      s.(pending := map r | r in s.pending && !Holds(s, r, client) :: s.pending[r],
         entries := map i | i in s.entries :: if i in ids then Failing(s.entries[i], ClientDisconnected) else s.entries[i],
         failing := s.failing + multiset(ids))
    case SendFailure(id) =>
      if id in s.failing && id in s.entries && s.entries[id].fate.Failed? then
        var e := s.entries[id];
        s.(failing := s.failing - multiset{id},
           entries := s.entries[id := if |e.done| < 1 then e.(done := [e.fate.cause]) else e])
      else s
    case Receive(id) =>
      if id in s.entries && !s.entries[id].waiter.Returned? && s.entries[id].done != [] then
        var e := s.entries[id];
        s.(entries := s.entries[id := e.(done := e.done[1..], waiter := Returned(Completed(e.done[0])))])
      else s
    case SeePaired(id) =>
      if id in s.entries && s.entries[id].waiter.Selecting? && s.entries[id].paired > 0 then
        s.(entries := s.entries[id := s.entries[id].(waiter := AwaitingDone)])
      else s
    case Expire(id) =>
      if id in s.entries && s.entries[id].waiter.Selecting? then
        var e := s.entries[id];
        if e.request in s.pending && s.pending[e.request] == id then
          s.(pending := s.pending - {e.request},
             entries := s.entries[id := e.(visitorClosed := true, fate := TimedOut, waiter := Returned(DeadlineExceeded))])
        else s.(entries := s.entries[id := e.(waiter := AwaitingDone)])
      else s
  }

  function Run(s: State, steps: seq<Step>): State {
    if steps == [] then s else Next(Run(s, steps[..|steps| - 1]), steps[|steps| - 1])
  }

  // ---------- invariants ----------

  ghost predicate InPending(s: State, id: EntryId, e: Entry) {
    e.request in s.pending && s.pending[e.request] == id
  }

  function Received(w: Waiter): nat {
    if w.Returned? && w.outcome.Completed? then 1 else 0
  }

  /** The books of one entry: a claimed or failed entry owes, holds or has delivered exactly one value. */
  ghost predicate Balanced(s: State, id: EntryId)
    requires id in s.entries
  {
    var e := s.entries[id];
    && (e.fate.InMap? <==> InPending(s, id, e))
    && e.paired == (if e.fate.Claimed? then 1 else 0)
    && s.relaying[id] + s.failing[id] + |e.done| + Received(e.waiter)
       == (if e.fate.Claimed? || e.fate.Failed? then 1 else 0)
    && (s.relaying[id] > 0 ==> e.fate.Claimed?)
    && (s.failing[id] > 0 ==> e.fate.Failed?)
    && (e.fate.Failed? && e.done != [] ==> e.done[0] == e.fate.cause)
    && (e.fate.Failed? && Received(e.waiter) == 1 ==> e.waiter.outcome.value == e.fate.cause)
    && (e.waiter == Returned(DeadlineExceeded) <==> e.fate.TimedOut?)
    && (e.waiter.AwaitingDone? ==> e.fate.Claimed? || e.fate.Failed?)
    && (e.visitorClosed <==> e.fate.Failed? || e.fate.TimedOut?)
    && (e.relayed.Some? ==> e.fate.Claimed? && s.relaying[id] == 0)
    && (e.fate.Claimed? && e.done != [] ==> e.relayed == Some(e.done[0]))
    && (e.fate.Claimed? && Received(e.waiter) == 1 ==> e.relayed == Some(e.waiter.outcome.value))
  }

  ghost predicate Known(s: State) {
    && (forall r | r in s.pending :: s.pending[r] in s.entries && s.entries[s.pending[r]].request == r)
    && (forall id :: id in s.relaying || id in s.failing ==> id in s.entries)
  }

  ghost predicate Inv(s: State) {
    Known(s) && forall id | id in s.entries :: Balanced(s, id)
  }

  lemma RegisterBalanced(s: State, added: EntryId, request: RequestId, client: ClientId, id: EntryId)
    requires Inv(s) && id in Next(s, Register(added, request, client)).entries
    ensures Balanced(Next(s, Register(added, request, client)), id)
  {
  }

  lemma ClaimBalanced(s: State, client: ClientId, request: RequestId, generation: Generation, id: EntryId)
    requires Inv(s) && id in s.entries
    ensures Balanced(Next(s, Claim(client, request, generation)), id)
  {
  }

  lemma FailBalanced(s: State, client: ClientId, request: RequestId, cause: int, id: EntryId)
    requires Inv(s) && id in s.entries
    ensures Balanced(Next(s, Fail(client, request, cause)), id)
  {
  }

  lemma FailClientBalanced(s: State, client: ClientId, id: EntryId)
    requires Inv(s) && id in s.entries
    ensures Balanced(Next(s, FailClient(client)), id)
  {
    assert Balanced(s, id);
    assert id in Taken(s, client) <==> InPending(s, id, s.entries[id]) && s.entries[id].client == client;
  }

  lemma SendBalanced(s: State, step: Step, id: EntryId)
    requires Inv(s) && id in s.entries
    requires step.EndRelay? || step.SendFailure?
    ensures Balanced(Next(s, step), id)
  {
    assert Balanced(s, id);
  }

  lemma WaiterBalanced(s: State, step: Step, id: EntryId)
    requires Inv(s) && id in s.entries
    requires step.Receive? || step.SeePaired?
    ensures Balanced(Next(s, step), id)
  {
    assert Balanced(s, id);
  }

  lemma ExpireBalanced(s: State, timed: EntryId, id: EntryId)
    requires Inv(s) && id in s.entries
    ensures Balanced(Next(s, Expire(timed)), id)
  {
    assert Balanced(s, id);
  }

  /** Only registering adds an entry, and none is forgotten. */
  lemma NextEntries(s: State, step: Step)
    ensures s.entries.Keys <= Next(s, step).entries.Keys
    ensures !step.Register? ==> Next(s, step).entries.Keys == s.entries.Keys
  {
  }

  lemma RemovalKnown(s: State, step: Step)
    requires Known(s) && (step.Register? || step.Claim? || step.Fail?)
    ensures Known(Next(s, step))
  {
  }

  lemma FailClientKnown(s: State, client: ClientId)
    requires Known(s)
    ensures Known(Next(s, FailClient(client)))
  {
  }

  lemma SendKnown(s: State, step: Step)
    requires Known(s) && (step.EndRelay? || step.SendFailure?)
    ensures Known(Next(s, step))
  {
  }

  lemma WaiterKnown(s: State, step: Step)
    requires Known(s) && (step.Receive? || step.SeePaired?)
    ensures Known(Next(s, step))
  {
  }

  lemma ExpireKnown(s: State, id: EntryId)
    requires Known(s)
    ensures Known(Next(s, Expire(id)))
  {
  }

  lemma NextKnown(s: State, step: Step)
    requires Known(s)
    ensures Known(Next(s, step))
  {
    hide Next, Known;
    match step
    case FailClient(client) => FailClientKnown(s, client);
    case EndRelay(_, _) => SendKnown(s, step);
    case SendFailure(_) => SendKnown(s, step);
    case Receive(_) => WaiterKnown(s, step);
    case SeePaired(_) => WaiterKnown(s, step);
    case Expire(id) => ExpireKnown(s, id);
    case _ => RemovalKnown(s, step);
  }

  lemma NextBalanced(s: State, step: Step, id: EntryId)
    requires Inv(s) && id in Next(s, step).entries
    ensures Balanced(Next(s, step), id)
  {
    hide Next, Balanced;
    NextEntries(s, step);
    match step
    case Register(added, request, client) => RegisterBalanced(s, added, request, client, id);
    case Claim(client, request, generation) => ClaimBalanced(s, client, request, generation, id);
    case Fail(client, request, cause) => FailBalanced(s, client, request, cause, id);
    case FailClient(client) => FailClientBalanced(s, client, id);
    case EndRelay(_, _) => SendBalanced(s, step, id);
    case SendFailure(_) => SendBalanced(s, step, id);
    case Receive(_) => WaiterBalanced(s, step, id);
    case SeePaired(_) => WaiterBalanced(s, step, id);
    case Expire(timed) => ExpireBalanced(s, timed, id);
  }

  lemma NextInv(s: State, step: Step)
    requires Inv(s)
    ensures Inv(Next(s, step))
  {
    hide Next, Known, Balanced;
    NextKnown(s, step);
    forall id | id in Next(s, step).entries ensures Balanced(Next(s, step), id) {
      NextBalanced(s, step, id);
    }
  }

  lemma {:induction false} RunInv(steps: seq<Step>)
    ensures Inv(Run(EMPTY, steps))
  {
    if steps != [] {
      RunInv(steps[..|steps| - 1]);
      NextInv(Run(EMPTY, steps[..|steps| - 1]), steps[|steps| - 1]);
    }
  }

  // ---------- what every run promises ----------

  lemma {:induction false} RunBalanced(steps: seq<Step>, id: EntryId)
    requires id in Run(EMPTY, steps).entries
    ensures Balanced(Run(EMPTY, steps), id)
  {
    RunInv(steps);
  }

  ghost predicate Gone(s: State, id: EntryId) {
    id in s.entries && !s.entries[id].fate.InMap? && forall r | r in s.pending :: s.pending[r] != id
  }

  lemma OutOfMapIsGone(s: State, id: EntryId)
    requires Inv(s) && id in s.entries && !s.entries[id].fate.InMap?
    ensures Gone(s, id)
  {
    assert Balanced(s, id);
  }

  lemma RemovalKeepsFate(s: State, step: Step, id: EntryId)
    requires Gone(s, id) && (step.Claim? || step.Fail? || step.FailClient?)
    ensures id in Next(s, step).entries && Next(s, step).entries[id].fate == s.entries[id].fate
  {
    if step.FailClient? { assert id !in Taken(s, step.client); }
  }

  lemma NextKeepsFate(s: State, step: Step, id: EntryId)
    requires Gone(s, id)
    ensures id in Next(s, step).entries && Next(s, step).entries[id].fate == s.entries[id].fate
  {
    if step.Claim? || step.Fail? || step.FailClient? { RemovalKeepsFate(s, step, id); }
  }

  ghost predicate FateIs(s: State, id: EntryId, fate: Fate) {
    Gone(s, id) && s.entries[id].fate == fate
  }

  lemma NextFate(s: State, step: Step, id: EntryId, fate: Fate)
    requires Inv(s) && FateIs(s, id, fate)
    ensures FateIs(Next(s, step), id, fate)
  {
    NextKeepsFate(s, step, id);
    NextInv(s, step);
    OutOfMapIsGone(Next(s, step), id);
  }

  lemma {:induction false} FateStays(s: State, more: seq<Step>, id: EntryId, fate: Fate)
    requires Inv(s) && FateIs(s, id, fate)
    ensures Inv(Run(s, more)) && FateIs(Run(s, more), id, fate)
  {
    if more != [] {
      var init := more[..|more| - 1];
      FateStays(s, init, id, fate);
      NextInv(Run(s, init), more[|more| - 1]);
      NextFate(Run(s, init), more[|more| - 1], id, fate);
    }
  }

  /** An entry leaves the pending map once: the first claim, failure or timeout is final in every
      continuation of the run, and no request id, used again or not, ever leads to the entry again. */
  lemma {:induction false} OneFate(steps: seq<Step>, more: seq<Step>, id: EntryId)
    requires id in Run(EMPTY, steps).entries && !Run(EMPTY, steps).entries[id].fate.InMap?
    ensures FateIs(Run(Run(EMPTY, steps), more), id, Run(EMPTY, steps).entries[id].fate)
  {
    var s := Run(EMPTY, steps);
    RunInv(steps);
    OutOfMapIsGone(s, id);
    FateStays(s, more, id, s.entries[id].fate);
  }

  /** `paired` is closed at most once, and exactly when the entry is claimed. */
  lemma {:induction false} PairedClosedOnlyByTheClaim(steps: seq<Step>, id: EntryId)
    requires id in Run(EMPTY, steps).entries
    ensures var e := Run(EMPTY, steps).entries[id];
            e.paired <= 1 && (e.paired == 1 <==> e.fate.Claimed?)
  {
    RunBalanced(steps, id);
  }

  /** A visitor is closed exactly when it was failed or timed out: pairing hands it over open. */
  lemma {:induction false} VisitorClosedExactly(steps: seq<Step>, id: EntryId)
    requires id in Run(EMPTY, steps).entries
    ensures var e := Run(EMPTY, steps).entries[id];
            e.visitorClosed <==> e.fate.Failed? || e.fate.TimedOut?
  {
    RunBalanced(steps, id);
  }

  /** No send on `done` ever finds it full: the blocking send of a relay does not block, and the
      non-blocking send of a failure is not dropped. */
  lemma {:induction false} SendsFindRoom(steps: seq<Step>, id: EntryId)
    ensures var s := Run(EMPTY, steps);
            id in s.relaying || id in s.failing ==> CanSend(s, id) && s.relaying[id] + s.failing[id] == 1
  {
    RunInv(steps);
    var s := Run(EMPTY, steps);
    if id in s.relaying || id in s.failing { assert Balanced(s, id); }
  }

  /** A Wait that stopped listening to its timer, because it saw the pairing or lost the race to
      cancel, has exactly one completion coming: in a goroutine or already in the channel. */
  lemma {:induction false} LosingWaitIsOwed(steps: seq<Step>, id: EntryId)
    requires id in Run(EMPTY, steps).entries && Run(EMPTY, steps).entries[id].waiter.AwaitingDone?
    ensures var s := Run(EMPTY, steps);
            s.relaying[id] + s.failing[id] + |s.entries[id].done| == 1
  {
    RunBalanced(steps, id);
  }

  ghost predicate ReportsFate(e: Entry) {
    e.waiter.Returned? ==>
      match e.fate
      case InMap => false
      case TimedOut => e.waiter.outcome == DeadlineExceeded
      case Failed(cause) => e.waiter.outcome == Completed(cause)
      case Claimed => e.relayed.Some? && e.waiter.outcome == Completed(e.relayed.value)
  }

  lemma BalancedReports(s: State, id: EntryId)
    requires id in s.entries && Balanced(s, id)
    ensures ReportsFate(s.entries[id])
  {
  }

  /** What a Wait returns is what happened: a deadline exactly for the entry it cancelled itself, the
      cause of the failure for a failed one, the result of its own relay for a claimed one. */
  lemma {:induction false} WaitReportsTheFate(steps: seq<Step>, id: EntryId)
    requires id in Run(EMPTY, steps).entries
    ensures ReportsFate(Run(EMPTY, steps).entries[id])
  {
    RunBalanced(steps, id);
    BalancedReports(Run(EMPTY, steps), id);
  }

  /** One step of the goroutine that still has to send to the entry, if there is one. */
  function Settled(s: State, id: EntryId, result: Completion): State {
    if id in s.relaying then Next(s, EndRelay(id, result))
    else if id in s.failing then Next(s, SendFailure(id))
    else s
  }

  lemma SettledHasValue(s: State, id: EntryId, result: Completion)
    requires id in s.entries && Balanced(s, id)
    requires !s.entries[id].fate.InMap? && !s.entries[id].waiter.Returned?
    ensures var k := Settled(s, id, result);
            id in k.entries && !k.entries[id].waiter.Returned? && k.entries[id].done != []
  {
  }

  /** No Wait is ever stuck: while its entry waits, its timer alone ends it; afterwards the sender that
      is still owed, if any, and the receive end it. */
  lemma {:induction false} WaitCanReturn(steps: seq<Step>, id: EntryId, result: Completion)
    requires id in Run(EMPTY, steps).entries && !Run(EMPTY, steps).entries[id].waiter.Returned?
    ensures var s := Run(EMPTY, steps);
            var k := if s.entries[id].fate.InMap? then Next(s, Expire(id)) else Next(Settled(s, id, result), Receive(id));
            id in k.entries && k.entries[id].waiter.Returned?
  {
    RunBalanced(steps, id);
    var s := Run(EMPTY, steps);
    if !s.entries[id].fate.InMap? { SettledHasValue(s, id, result); }
  }
}
