/** Active data connections, their generation fence and the pool of idle work connections
    (server/relay/client_connections.go, work_connection_pool.go, work_connections.go). */
module ClientConnections {
  import opened Options

  type ClientId = nat
  type RequestId = string

  /** A Go uint64. */
  const WIDTH: nat := 0x1_0000_0000_0000_0000

  type Generation = n: nat | n < WIDTH

  class Socket {
    var closed: bool

    constructor ()
      ensures !closed
    {
      closed := false;
    }
  }

  class ActiveConnection {
    const requestID: RequestId
    const data: Socket
    const visitor: Socket

    constructor (requestID: RequestId, data: Socket, visitor: Socket)
      ensures this.requestID == requestID && this.data == data && this.visitor == visitor
    {
      this.requestID, this.data, this.visitor := requestID, data, visitor;
    }
  }

  function Sockets(connections: set<ActiveConnection>): set<Socket> {
    (set c | c in connections :: c.data) + (set c | c in connections :: c.visitor)
  }

  function Of<V>(m: map<ClientId, set<V>>, client: ClientId): set<V> {
    if client in m then m[client] else {}
  }

  function GenerationOf(generations: map<ClientId, Generation>, client: ClientId): Generation {
    if client in generations then generations[client] else 0
  }

  function Bumped(g: Generation): Generation {
    (g + 1) % WIDTH
  }

  class Connections {
    var generations: map<ClientId, Generation>
    var active: map<ClientId, set<ActiveConnection>>

    constructor ()
      ensures generations == map[] && active == map[]
    {
      generations, active := map[], map[];
    }

    method GenerationFor(client: ClientId) returns (g: Generation)
      ensures g == GenerationOf(generations, client)
    {
      g := if client in generations then generations[client] else 0;
    }

    method Register(client: ClientId, generation: Generation, requestID: RequestId, data: Socket, visitor: Socket)
      returns (connection: Option<ActiveConnection>)
      modifies this`active
      ensures connection.Some? <==> GenerationOf(generations, client) == generation
      ensures connection.Some? <==> generation == if client in generations then generations[client] else 0
      ensures connection.None? ==> active == old(active)
      ensures connection.Some? ==>
                var c := connection.value;
                && fresh(c) && c.requestID == requestID && c.data == data && c.visitor == visitor
                && active == old(active)[client := Of(old(active), client) + {c}]
                && c in active[client] && (client in old(active) ==> active[client] == old(active)[client] + {c})
    {
      var current := GenerationFor(client);
      if current != generation {
        return None;
      }
      var c := new ActiveConnection(requestID, data, visitor);
      active := active[client := Of(active, client) + {c}];
      return Some(c);
    }

    method Remove(client: ClientId, connection: ActiveConnection)
      modifies this`active
      ensures var left := Of(old(active), client) - {connection};
              active == if left == {} then old(active) - {client} else old(active)[client := left]
    {
      var left := Of(active, client) - {connection};
      if left == {} {
        active := active - {client};
      } else {
        active := active[client := left];
      }
    }

    /** Cuts off every active connection of the client and makes all generations captured so far stale. */
    method Disconnect(client: ClientId)
      modifies this, Sockets(Of(active, client))
      ensures generations == old(generations)[client := Bumped(GenerationOf(old(generations), client))]
      ensures generations[client] ==
              if client !in old(generations) then 1
              else if old(generations)[client] == 0xffff_ffff_ffff_ffff then 0 else old(generations)[client] + 1
      ensures active == old(active) - {client}
      ensures forall s <- Sockets(Of(old(active), client)) :: s.closed
      ensures client in old(active) ==> forall c <- old(active)[client] :: c.data.closed && c.visitor.closed
    {
      generations := generations[client := Bumped(GenerationOf(generations, client))];
      var connections := Of(active, client);
      active := active - {client};
      CloseAll(connections);
    }

    method CloseRequest(client: ClientId, requestID: RequestId)
      modifies Sockets(set c | c in Of(active, client) && c.requestID == requestID)
      ensures forall s <- Sockets(set c | c in Of(active, client) && c.requestID == requestID) :: s.closed
      ensures client in active ==>
                forall c <- active[client] :: c.requestID == requestID ==> c.data.closed && c.visitor.closed
    {
      var connections := set c | c in Of(active, client) && c.requestID == requestID;
      CloseAll(connections);
    }

    static method CloseAll(connections: set<ActiveConnection>)
      modifies Sockets(connections)
      ensures forall s <- Sockets(connections) :: s.closed
      ensures forall c <- connections :: c.data.closed && c.visitor.closed
    {
      var rest := connections;
      while rest != {}
        invariant rest <= connections
        invariant forall s <- Sockets(connections - rest) :: s.closed
      {
        var c :| c in rest;
        rest := rest - {c};
        c.data.closed := true;
        c.visitor.closed := true;
      }
      assert connections - rest == connections;
    }
  }

  // ---------- idle work connections ----------

  datatype Worker = Worker(conn: nat, client: ClientId, generation: Generation)

  function IdleOf(idle: map<ClientId, seq<Worker>>, client: ClientId): seq<Worker> {
    if client in idle then idle[client] else []
  }

  function Conns(workers: seq<Worker>): set<nat> {
    set w | w in workers :: w.conn
  }

  /** One of the client's idle workers has this transport. */
  predicate Holds(idle: map<ClientId, seq<Worker>>, client: ClientId, conn: nat) {
    client in idle && exists i :: 0 <= i < |idle[client]| && idle[client][i].conn == conn
  }

  lemma ConnsAreHeld(idle: map<ClientId, seq<Worker>>, client: ClientId, conn: nat)
    ensures conn in Conns(IdleOf(idle, client)) <==> Holds(idle, client, conn)
  {
    if conn in Conns(IdleOf(idle, client)) {
      var w :| w in IdleOf(idle, client) && w.conn == conn;
    }
  }

  /** The outcome of trying the workers of a stack from the top until one starts. */
  datatype Assignment = Assignment(chosen: Option<Worker>, left: seq<Worker>, dropped: seq<Worker>)

  function Assigned(stack: seq<Worker>, starts: Worker -> bool): Assignment {
    if stack == [] then Assignment(None, [], [])
    else
      var below, top := stack[..|stack| - 1], stack[|stack| - 1];
      if starts(top) then Assignment(Some(top), below, [])
      else var a := Assigned(below, starts); a.(dropped := a.dropped + [top])
  }

  /** The topmost worker that starts is chosen; everything above it is dropped, everything below stays. */
  lemma {:induction false} AssignedIsTheTopmost(stack: seq<Worker>, starts: Worker -> bool)
    ensures var a := Assigned(stack, starts);
            && stack == a.left + (if a.chosen.Some? then [a.chosen.value] else []) + a.dropped
            && (forall w <- a.dropped :: !starts(w))
            && (if a.chosen.Some? then starts(a.chosen.value) else a.left == [])
  {
    if stack != [] && !starts(stack[|stack| - 1]) {
      AssignedIsTheTopmost(stack[..|stack| - 1], starts);
    }
  }

  lemma AssignedOneLower(stack: seq<Worker>, starts: Worker -> bool)
    requires stack != []
    ensures var a := Assigned(stack, starts);
            var worker := stack[|stack| - 1];
            var b := Assigned(stack[..|stack| - 1], starts);
            if starts(worker) then a == Assignment(Some(worker), stack[..|stack| - 1], [])
            else
              && a.chosen == b.chosen && a.left == b.left
              && |a.dropped| == |b.dropped| + 1 && Conns(a.dropped) == {worker.conn} + Conns(b.dropped)
  {
  }

  /** What is left to do when the workers of `stack` are still to be tried. */
  ghost predicate Remaining(all: Assignment, stack: seq<Worker>, starts: Worker -> bool,
                            closedBefore: set<nat>, closed: set<nat>, requestedBefore: nat, requested: nat)
  {
    var a := Assigned(stack, starts);
    && a.chosen == all.chosen && a.left == all.left
    && closed + Conns(a.dropped) == closedBefore + Conns(all.dropped)
    && requested + |a.dropped| == requestedBefore + |all.dropped|
  }

  lemma RemainingOneLower(all: Assignment, stack: seq<Worker>, starts: Worker -> bool,
                          closedBefore: set<nat>, closed: set<nat>, requestedBefore: nat, requested: nat)
    requires stack != [] && !starts(stack[|stack| - 1])
    requires Remaining(all, stack, starts, closedBefore, closed, requestedBefore, requested)
    ensures Remaining(all, stack[..|stack| - 1], starts,
                      closedBefore, closed + {stack[|stack| - 1].conn}, requestedBefore, requested + 1)
  {
    AssignedOneLower(stack, starts);
  }

  /** Nothing more is dropped when the worker on top starts, or when none is left. */
  lemma RemainingAtEnd(all: Assignment, stack: seq<Worker>, starts: Worker -> bool,
                       closedBefore: set<nat>, closed: set<nat>, requestedBefore: nat, requested: nat)
    requires stack == [] || starts(stack[|stack| - 1])
    requires Remaining(all, stack, starts, closedBefore, closed, requestedBefore, requested)
    ensures all.chosen == (if stack == [] then None else Some(stack[|stack| - 1]))
    ensures all.left == (if stack == [] then [] else stack[..|stack| - 1])
    ensures closed == closedBefore + Conns(all.dropped) && requested == requestedBefore + |all.dropped|
  {
  }

  class WorkConnectionPool {
    const maxIdle: nat
    var idle: map<ClientId, seq<Worker>>
    var closed: set<nat>  // transports that were closed
    var requested: nat    // workers asked for from the agent

    ghost predicate Valid()
      reads this
    {
      forall c | c in idle :: 0 < |idle[c]| <= maxIdle && forall w <- idle[c] :: w.client == c
    }

    constructor (maxIdle: nat)
      ensures this.maxIdle == maxIdle && Valid() && idle == map[] && closed == {} && requested == 0
    {
      this.maxIdle, idle, closed, requested := maxIdle, map[], {}, 0;
    }

    method Add(worker: Worker) returns (ok: bool)
      requires Valid()
      modifies this`idle
      ensures Valid()
      ensures var workers := IdleOf(old(idle), worker.client);
              && ok == (|workers| < maxIdle)
              && idle == if ok then old(idle)[worker.client := workers + [worker]] else old(idle)
      ensures ok == (0 < maxIdle && (worker.client in old(idle) ==> |old(idle)[worker.client]| < maxIdle))
      ensures ok ==>
                idle[worker.client] == (if worker.client in old(idle) then old(idle)[worker.client] else []) + [worker]
    {
      var workers := IdleOf(idle, worker.client);
      if |workers| >= maxIdle {
        return false;
      }
      idle := idle[worker.client := workers + [worker]];
      return true;
    }

    method Take(client: ClientId) returns (worker: Option<Worker>)
      requires Valid()
      modifies this`idle
      ensures Valid()
      ensures var workers := IdleOf(old(idle), client);
              if workers == [] then worker == None && idle == old(idle)
              else
                && worker == Some(workers[|workers| - 1])
                && IdleOf(idle, client) == workers[..|workers| - 1]
                && forall c | c != client :: IdleOf(idle, c) == IdleOf(old(idle), c)
      ensures worker.Some? <==> client in old(idle)
      ensures worker.Some? ==> worker.value == old(idle)[client][|old(idle)[client]| - 1]
    {
      var workers := IdleOf(idle, client);
      if |workers| == 0 {
        return None;
      }
      var last := |workers| - 1;
      worker := Some(workers[last]);
      workers := workers[..last];
      if |workers| == 0 {
        idle := idle - {client};
      } else {
        idle := idle[client := workers];
      }
    }

    method CloseClient(client: ClientId)
      requires Valid()
      modifies this`idle, this`closed
      ensures Valid()
      ensures idle == old(idle) - {client}
      ensures closed == old(closed) + Conns(IdleOf(old(idle), client))
      ensures forall n: nat :: n in closed <==> n in old(closed) || Holds(old(idle), client, n)
    {
      var workers := IdleOf(idle, client);
      idle := idle - {client};
      var i := 0;
      while i < |workers|
        invariant 0 <= i <= |workers|
        invariant closed == old(closed) + Conns(workers[..i])
        modifies this`closed
      {
        closed := closed + {workers[i].conn};
        assert workers[..i + 1] == workers[..i] + [workers[i]];
        i := i + 1;
      }
      assert workers[..i] == workers;
      forall n: nat ensures n in closed <==> n in old(closed) || Holds(old(idle), client, n) {
        ConnsAreHeld(old(idle), client, n);
      }
    }

    /** assignWorkConnection: try the worker at hand, then idle workers from the top, until one starts; close
        those that do not, and ask the agent for one new worker for each that was tried. `starts` says how
        the exchange with a worker ends. When none starts, the agent is asked to open the data path itself, if the
        visitor still waits and the server has a way to ask (`canOpen`). */
    method Assign(first: Worker, starts: Worker -> bool, canOpen: bool) returns (chosen: Option<Worker>, opens: bool)
      requires Valid()
      modifies this
      ensures Valid()
      ensures var a := Assigned(IdleOf(old(idle), first.client) + [first], starts);
              && chosen == a.chosen && opens == (chosen.None? && canOpen)
              && IdleOf(idle, first.client) == a.left
              && (forall c | c != first.client :: IdleOf(idle, c) == IdleOf(old(idle), c))
              && closed == old(closed) + Conns(a.dropped)
              && requested == old(requested) + |a.dropped| + if chosen.Some? then 1 else 0
    {
      hide Assigned, Conns;
      ghost var stack := IdleOf(idle, first.client) + [first];
      ghost var all := Assigned(stack, starts);
      var worker := first;
      requested := requested + 1;
      while !starts(worker)
        invariant Valid() && worker.client == first.client
        invariant stack != [] && worker == stack[|stack| - 1] && IdleOf(idle, first.client) == stack[..|stack| - 1]
        invariant forall c | c != first.client :: IdleOf(idle, c) == IdleOf(old(idle), c)
        invariant requested > 0
        invariant Remaining(all, stack, starts, old(closed), closed, old(requested), requested - 1)
        decreases |stack|
      {
        RemainingOneLower(all, stack, starts, old(closed), closed, old(requested), requested - 1);
        closed := closed + {worker.conn};
        stack := stack[..|stack| - 1];
        var next := Take(worker.client);
        if next.None? {
          RemainingAtEnd(all, stack, starts, old(closed), closed, old(requested), requested);
          return None, canOpen;
        }
        worker := next.value;
        requested := requested + 1;
      }
      RemainingAtEnd(all, stack, starts, old(closed), closed, old(requested), requested - 1);
      return Some(worker), false;
    }
  }

  // ---------- the fence, over every interleaving ----------

  type Stream = nat

  /** A data channel, QUIC stream or work connection that was authenticated for a client. `at` counts the
      disconnects of the client so far; what the stream carries is its value as a uint64. */
  datatype Capture = Capture(client: ClientId, at: nat)

  datatype State = State(
    disconnects: map<ClientId, nat>,
    captured: map<Stream, Capture>,
    idle: map<ClientId, seq<Stream>>,
    active: map<ClientId, set<Stream>>)

  const EMPTY := State(map[], map[], map[], map[])

  datatype Step =
    | Authenticate(stream: Stream, client: ClientId)
    | PoolAdd(stream: Stream)
    | PoolTake(client: ClientId)
    | PoolClose(client: ClientId)
    | PoolCloseAll
    | Admit(stream: Stream)           // relayPending registers the stream under its captured generation
    | Finish(stream: Stream)
    | Disconnect(client: ClientId)

  function Disconnects(s: State, client: ClientId): nat {
    if client in s.disconnects then s.disconnects[client] else 0
  }

  function Generation64(count: nat): Generation {
    count % WIDTH
  }

  function Stack(s: State, client: ClientId): seq<Stream> {
    if client in s.idle then s.idle[client] else []
  }

  predicate Admissible(s: State, stream: Stream) {
    stream in s.captured && Generation64(Disconnects(s, s.captured[stream].client)) == Generation64(s.captured[stream].at)
  }

  /** The pool closes and the streams that wait in it leave it at any moment; nothing keeps a stale stream
      from being put into the pool or taken out and offered again. */
  function Next(s: State, step: Step, maxIdle: nat): State {
    match step
    case Authenticate(stream, client) =>
      if stream in s.captured then s
      else s.(captured := s.captured[stream := Capture(client, Disconnects(s, client))])
    case PoolAdd(stream) =>
      if stream in s.captured && |Stack(s, s.captured[stream].client)| < maxIdle then
        var client := s.captured[stream].client;
        s.(idle := s.idle[client := Stack(s, client) + [stream]])
      else s
    case PoolTake(client) =>
      var stack := Stack(s, client);
      if stack == [] then s else s.(idle := s.idle[client := stack[..|stack| - 1]])
    case PoolClose(client) => s.(idle := s.idle - {client})
    case PoolCloseAll => s.(idle := map[])
    case Admit(stream) =>
      if Admissible(s, stream) then
        var client := s.captured[stream].client;
        s.(active := s.active[client := Of(s.active, client) + {stream}])
      else s
    case Finish(stream) =>
      s.(active := map c | c in s.active :: s.active[c] - {stream})
    case Disconnect(client) =>
      s.(disconnects := s.disconnects[client := Disconnects(s, client) + 1], active := s.active - {client})
  }

  function Run(s: State, steps: seq<Step>, maxIdle: nat): State {
    if steps == [] then s else Next(Run(s, steps[..|steps| - 1], maxIdle), steps[|steps| - 1], maxIdle)
  }

  /** Every active stream of a client carries the client's current generation, and none was captured in the future. */
  ghost predicate Inv(s: State) {
    && (forall c, t | c in s.active && t in s.active[c] :: t in s.captured && s.captured[t].client == c && Admissible(s, t))
    && (forall t | t in s.captured :: s.captured[t].at <= Disconnects(s, s.captured[t].client))
  }

  lemma NextInv(s: State, step: Step, maxIdle: nat)
    requires Inv(s)
    ensures Inv(Next(s, step, maxIdle))
  {
  }

  lemma {:induction false} RunInv(s: State, steps: seq<Step>, maxIdle: nat)
    requires Inv(s)
    ensures Inv(Run(s, steps, maxIdle))
  {
    if steps != [] {
      RunInv(s, steps[..|steps| - 1], maxIdle);
      NextInv(Run(s, steps[..|steps| - 1], maxIdle), steps[|steps| - 1], maxIdle);
    }
  }

  /** How many of the steps disconnect the client. */
  function Cuts(steps: seq<Step>, client: ClientId): nat {
    if steps == [] then 0
    else Cuts(steps[..|steps| - 1], client) + if steps[|steps| - 1] == Disconnect(client) then 1 else 0
  }

  lemma {:induction false} RunCounts(s: State, steps: seq<Step>, maxIdle: nat, client: ClientId, stream: Stream)
    ensures Disconnects(Run(s, steps, maxIdle), client) == Disconnects(s, client) + Cuts(steps, client)
    ensures stream in s.captured ==>
              stream in Run(s, steps, maxIdle).captured && Run(s, steps, maxIdle).captured[stream] == s.captured[stream]
  {
    if steps != [] {
      RunCounts(s, steps[..|steps| - 1], maxIdle, client, stream);
    }
  }

  lemma CongruentDistance(a: nat, b: nat)
    ensures Generation64(a + b) == Generation64(a) <==> b % WIDTH == 0
  {
  }

  /** The counter of the class is the number of disconnects as a uint64. */
  lemma BumpedCounts(count: nat)
    ensures Bumped(Generation64(count)) == Generation64(count + 1)
  {
  }

  lemma AuthenticateCaptures(s: State, stream: Stream, client: ClientId, maxIdle: nat)
    requires stream !in s.captured
    ensures var t := Next(s, Authenticate(stream, client), maxIdle);
            stream in t.captured && t.captured[stream] == Capture(client, Disconnects(t, client))
  {
  }

  /** What keeps one stream out of the active set. */
  lemma NotAdmissibleIsOut(s: State, stream: Stream, maxIdle: nat)
    requires Inv(s) && !Admissible(s, stream)
    ensures (forall c | c in s.active :: stream !in s.active[c]) && Next(s, Admit(stream), maxIdle) == s
  {
  }

  lemma EmptyInv()
    ensures Inv(EMPTY)
  {
  }

  /** The exact fence. A stream that was authenticated when the client had been disconnected `d` times less
      than now can be registered exactly when `d` is a multiple of 2^64. */
  lemma {:induction false} AdmittedExactly(before: seq<Step>, stream: Stream, client: ClientId, more: seq<Step>,
                                           maxIdle: nat)
    requires stream !in Run(EMPTY, before, maxIdle).captured
    ensures var s := Next(Run(EMPTY, before, maxIdle), Authenticate(stream, client), maxIdle);
            Admissible(Run(s, more, maxIdle), stream) <==> Cuts(more, client) % WIDTH == 0
  {
    hide Next, Run, Disconnects, Generation64;
    AuthenticateCaptures(Run(EMPTY, before, maxIdle), stream, client, maxIdle);
    var s := Next(Run(EMPTY, before, maxIdle), Authenticate(stream, client), maxIdle);
    RunCounts(s, more, maxIdle, client, stream);
    CongruentDistance(Disconnects(s, client), Cuts(more, client));
  }

  /** A stream that captured its generation before a disconnect is not active after it and never gets in
      again, whatever happens to it in the pool, while fewer than 2^64 disconnects follow. */
  lemma {:induction false} StaleStreamStaysOut(before: seq<Step>, stream: Stream, client: ClientId, more: seq<Step>,
                                               maxIdle: nat)
    requires stream !in Run(EMPTY, before, maxIdle).captured
    requires 0 < Cuts(more, client) < WIDTH
    ensures var s := Next(Run(EMPTY, before, maxIdle), Authenticate(stream, client), maxIdle);
            var k := Run(s, more, maxIdle);
            && (forall c | c in k.active :: stream !in k.active[c])
            && Next(k, Admit(stream), maxIdle) == k
  {
    hide Next, Run, Inv, Admissible;
    var s := Next(Run(EMPTY, before, maxIdle), Authenticate(stream, client), maxIdle);
    EmptyInv();
    RunInv(EMPTY, before, maxIdle);
    NextInv(Run(EMPTY, before, maxIdle), Authenticate(stream, client), maxIdle);
    RunInv(s, more, maxIdle);
    AdmittedExactly(before, stream, client, more, maxIdle);
    NotAdmissibleIsOut(Run(s, more, maxIdle), stream, maxIdle);
  }
}
