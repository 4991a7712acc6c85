/** The hub's session registry and the stored client status
    (server/client/hub_transport.go, client_status.go, hub.go).

    Two locks are involved. `h.mu` guards the three session maps and is held for one map update
    at a time. `h.statusMu` is held across a check of the maps and a later write of the stored
    status, so the maps may change between the two. Everything a session still has to do is an
    outstanding operation that may run at any moment; a run is any sequence of such steps. */
module HubSessions {
  import opened Options

  // Client ids, transports and write queues are opaque handles.
  type ClientId = nat
  type Conn = nat
  type Queue = nat
  type Time = int

  // ---------- the three maps guarded by h.mu ----------

  datatype Registry = Registry(conns: map<ClientId, Conn>, connected: map<ClientId, Time>, queues: map<ClientId, Queue>)

  function WithSession(r: Registry, client: ClientId, conn: Conn, queue: Queue, now: Time): Registry {
    Registry(r.conns[client := conn], r.connected[client := now], r.queues[client := queue])
  }

  predicate IsCurrent(r: Registry, client: ClientId, conn: Conn) {
    client in r.conns && r.conns[client] == conn
  }

  function WithoutSession(r: Registry, client: ClientId, conn: Conn): Registry {
    if IsCurrent(r, client, conn) then
      Registry(r.conns - {client}, r.connected - {client}, r.queues - {client})
    else r
  }

  function WithoutQueue(r: Registry, client: ClientId, queue: Queue): Registry {
    if client in r.queues && r.queues[client] == queue then r.(queues := r.queues - {client}) else r
  }

  function Get<K, V>(m: map<K, V>, k: K): Option<V> {
    if k in m then Some(m[k]) else None
  }

  class SessionHub {
    var conns: map<ClientId, Conn>
    var connected: map<ClientId, Time>
    var writeQueues: map<ClientId, Queue>
    var online: set<ClientId>  // clients whose stored status is "online"

    function Maps(): Registry
      reads this
    {
      Registry(conns, connected, writeQueues)
    }

    constructor (stored: set<ClientId>)
      ensures Maps() == Registry(map[], map[], map[]) && online == stored
    {
      conns, connected, writeQueues, online := map[], map[], map[], stored;
    }

    /** The caller closes `oldQueue` and `previous`, and reports a disconnect if there was one, after the lock is released. */
    method Register(client: ClientId, conn: Conn, queue: Queue, now: Time)
      returns (previous: Option<Conn>, oldQueue: Option<Queue>)
      modifies this`conns, this`connected, this`writeQueues
      ensures Maps() == WithSession(old(Maps()), client, conn, queue, now)
      ensures previous == Get(old(conns), client) && oldQueue == Get(old(writeQueues), client)
    {
      previous := Get(conns, client);
      oldQueue := Get(writeQueues, client);
      conns := conns[client := conn];
      connected := connected[client := now];
      writeQueues := writeQueues[client := queue];
    }

    /** `removed` tells whether the caller goes on to close `queue`, report the disconnect and mark the client offline. */
    method Unregister(client: ClientId, conn: Conn) returns (removed: bool, queue: Option<Queue>)
      modifies this`conns, this`connected, this`writeQueues
      ensures removed == IsCurrent(old(Maps()), client, conn)
      ensures Maps() == WithoutSession(old(Maps()), client, conn)
      ensures queue == if removed then Get(old(writeQueues), client) else None
    {
      if client !in conns || conns[client] != conn {
        return false, None;
      }
      conns := conns - {client};
      connected := connected - {client};
      queue := Get(writeQueues, client);
      writeQueues := writeQueues - {client};
      removed := true;
    }

    method DropQueue(client: ClientId, queue: Queue)
      modifies this`writeQueues
      ensures Maps() == WithoutQueue(old(Maps()), client, queue)
    {
      if client in writeQueues && writeQueues[client] == queue {
        writeQueues := writeQueues - {client};
      }
    }

    /** Reads the connection and then unregisters it, in two critical sections, here with nothing in between. In the
        machine the second one stands alone and takes any connection, so also one that was replaced meanwhile. */
    method Disconnect(client: ClientId) returns (found: bool, queue: Option<Queue>)
      modifies this`conns, this`connected, this`writeQueues
      ensures found == (client in old(conns))
      ensures found ==>
                && conns == old(conns) - {client} && connected == old(connected) - {client}
                && writeQueues == old(writeQueues) - {client} && queue == Get(old(writeQueues), client)
      ensures !found ==> Maps() == old(Maps()) && queue == None
    {
      var conn := Get(conns, client);
      if conn.None? {
        return false, None;
      }
      var removed;
      removed, queue := Unregister(client, conn.value);
      found := true;
    }

    method IsCurrentConnection(client: ClientId, conn: Conn) returns (yes: bool)
      ensures yes == IsCurrent(Maps(), client, conn)
    {
      yes := client in conns && conns[client] == conn;
    }

    method HasConnection(client: ClientId) returns (yes: bool)
      ensures yes == (client in Maps().conns)
    {
      yes := client in conns;
    }

    /** Both marks check the maps and then write, under statusMu; here with nothing in between. */
    method MarkClientOnline(client: ClientId, conn: Conn)
      modifies this`online
      ensures online == old(online) + if IsCurrent(Maps(), client, conn) then {client} else {}
    {
      var current := IsCurrentConnection(client, conn);
      if !current {
        return;
      }
      online := online + {client};
    }

    method MarkClientOffline(client: ClientId)
      modifies this`online
      ensures online == old(online) - if client in Maps().conns then {} else {client}
    {
      var connected := HasConnection(client);
      if connected {
        return;
      }
      online := online - {client};
    }
  }

  // ---------- the hub with everything that is still owed ----------

  /** One call of serveTransport. Its transport and its write queue are its own. */
  datatype Session = Session(client: ClientId, conn: Conn, queue: Queue)

  datatype Phase = Accepted | Running | Exited | Finished

  /** Who holds statusMu, after its check succeeded. */
  datatype StatusLock = Free | WritingOnline(session: Session) | WritingOffline(client: ClientId)

  datatype Hub = Hub(
    reg: Registry,
    online: set<ClientId>,
    lock: StatusLock,
    serving: map<Session, Phase>,
    // operations begun but not finished
    owedOnline: multiset<Session>,
    owedOffline: multiset<ClientId>,
    owedClose: multiset<Queue>,
    owedNotify: multiset<Session>,
    // history
    closed: set<Queue>,
    notified: multiset<Session>,
    current: map<ClientId, Session>,
    since: map<Session, Time>)

  datatype Step =
    | Accept(session: Session)                 // acceptHello: the upsert stores "online"
    | Register(session: Session, now: Time)
    | BeginOnline(session: Session)            // statusMu.Lock and the check
    | BeginOffline(client: ClientId)
    | FinishMark                               // the write and statusMu.Unlock
    | Unregister(client: ClientId, conn: Conn) // from Disconnect, a failed send or a failed queue
    | Exit(session: Session)                   // the deferred unregister of serveTransport
    | Drop(session: Session)                   // the deferred queue cleanup of serveTransport
    | CloseQueue(queue: Queue)
    | Notify(session: Session)

  function Start(stored: set<ClientId>): Hub {
    Hub(Registry(map[], map[], map[]), stored, Free, map[],
        multiset{}, multiset{}, multiset{}, multiset{}, {}, multiset{}, map[], map[])
  }

  function One<T>(o: Option<T>): multiset<T> {
    if o.Some? then multiset{o.value} else multiset{}
  }

  predicate Unused(h: Hub, s: Session) {
    forall t <- h.serving :: t.conn != s.conn && t.queue != s.queue
  }

  function DoRegister(h: Hub, s: Session, now: Time): Hub {
    h.(reg := WithSession(h.reg, s.client, s.conn, s.queue, now),
       serving := h.serving[s := Running],
       owedOnline := h.owedOnline + multiset{s},
       owedClose := h.owedClose + One(Get(h.reg.queues, s.client)),
       owedNotify := h.owedNotify + if s.client in h.reg.conns then One(Get(h.current, s.client)) else multiset{},
       current := h.current[s.client := s],
       since := h.since[s := now])
  }

  function DoUnregister(h: Hub, client: ClientId, conn: Conn): Hub {
    if IsCurrent(h.reg, client, conn) then
      h.(reg := WithoutSession(h.reg, client, conn),
         owedClose := h.owedClose + One(Get(h.reg.queues, client)),
         owedNotify := h.owedNotify + One(Get(h.current, client)),
         owedOffline := h.owedOffline + multiset{client},
         current := h.current - {client})
    else h
  }

  /** A step that is not enabled leaves the hub as it is. */
  function Next(h: Hub, step: Step): Hub {
    match step
    case Accept(s) =>
      if Unused(h, s) then h.(serving := h.serving[s := Accepted], online := h.online + {s.client}) else h
    case Register(s, now) =>
      if s in h.serving && h.serving[s] == Accepted then DoRegister(h, s, now) else h
    case BeginOnline(s) =>
      if s in h.owedOnline && h.lock.Free? then
        h.(owedOnline := h.owedOnline - multiset{s},
           lock := if IsCurrent(h.reg, s.client, s.conn) then WritingOnline(s) else Free)
      else h
    case BeginOffline(c) =>
      if c in h.owedOffline && h.lock.Free? then
        h.(owedOffline := h.owedOffline - multiset{c}, lock := if c in h.reg.conns then Free else WritingOffline(c))
      else h
    case FinishMark =>
      (match h.lock
       case Free => h
       case WritingOnline(s) => h.(online := h.online + {s.client}, lock := Free)
       case WritingOffline(c) => h.(online := h.online - {c}, lock := Free))
    case Unregister(c, conn) => DoUnregister(h, c, conn)
    case Exit(s) =>
      if s in h.serving && h.serving[s] == Running then
        DoUnregister(h, s.client, s.conn).(serving := h.serving[s := Exited])
      else h
    case Drop(s) =>
      if s in h.serving && h.serving[s] == Exited then
        h.(reg := WithoutQueue(h.reg, s.client, s.queue), closed := h.closed + {s.queue},
           serving := h.serving[s := Finished])
      else h
    case CloseQueue(q) =>
      if q in h.owedClose then h.(owedClose := h.owedClose - multiset{q}, closed := h.closed + {q}) else h
    case Notify(s) =>
      if s in h.owedNotify then
        h.(owedNotify := h.owedNotify - multiset{s}, notified := h.notified + multiset{s})
      else h
  }

  function Run(h: Hub, steps: seq<Step>): Hub {
    if steps == [] then h else Next(Run(h, steps[..|steps| - 1]), steps[|steps| - 1])
  }

  // ---------- invariants ----------

  ghost predicate Live(current: map<ClientId, Session>, s: Session) {
    s.client in current && current[s.client] == s
  }

  /** A session that was registered and is no longer the current one of its client. */
  ghost predicate Ended(serving: map<Session, Phase>, current: map<ClientId, Session>, s: Session) {
    s in serving && serving[s] != Accepted && !Live(current, s)
  }

  ghost predicate Distinct(serving: map<Session, Phase>) {
    forall s, t | s in serving && t in serving :: s.conn == t.conn || s.queue == t.queue ==> s == t
  }

  ghost predicate Belongs(reg: Registry, serving: map<Session, Phase>, since: map<Session, Time>, c: ClientId, s: Session)
    requires c in reg.conns && c in reg.connected && c in reg.queues
  {
    && s.client == c
    && s in serving && serving[s] == Running
    && s in since && reg.connected[c] == since[s]
    && reg.conns[c] == s.conn
    && reg.queues[c] == s.queue
  }

  /** The three maps have the same keys and every entry belongs to the one current session of its client. */
  ghost predicate MapsAgree(reg: Registry, serving: map<Session, Phase>, current: map<ClientId, Session>,
                            since: map<Session, Time>)
  {
    && (forall c :: c in reg.conns <==> c in current)
    && (forall c :: c in reg.connected <==> c in current)
    && (forall c :: c in reg.queues <==> c in current)
    && forall c | c in current :: Belongs(reg, serving, since, c, current[c])
  }

  ghost predicate Registered(h: Hub) {
    Distinct(h.serving) && MapsAgree(h.reg, h.serving, h.current, h.since)
  }

  /** What `Registered` says about one client. */
  ghost predicate Linked(h: Hub, c: ClientId) {
    && (c in h.reg.conns <==> c in h.current)
    && (c in h.reg.connected <==> c in h.current)
    && (c in h.reg.queues <==> c in h.current)
    && (c in h.current ==> Belongs(h.reg, h.serving, h.since, c, h.current[c]))
  }

  // ---------- every step keeps the invariants ----------

  lemma AcceptKeepsMaps(h: Hub, s: Session)
    requires Registered(h)
    ensures Registered(Next(h, Accept(s)))
  {
  }

  lemma PhaseKeepsDistinct(serving: map<Session, Phase>, s: Session, phase: Phase)
    requires Distinct(serving) && s in serving
    ensures Distinct(serving[s := phase])
  {
  }

  lemma RegisterAgrees(h: Hub, s: Session, now: Time)
    requires MapsAgree(h.reg, h.serving, h.current, h.since)
    ensures var k := DoRegister(h, s, now); MapsAgree(k.reg, k.serving, k.current, k.since)
  {
    var k := DoRegister(h, s, now);
    forall c | c in k.current ensures Belongs(k.reg, k.serving, k.since, c, k.current[c]) {
      if c != s.client {
        assert Belongs(h.reg, h.serving, h.since, c, h.current[c]);
      }
    }
  }

  lemma RegisterKeepsMaps(h: Hub, s: Session, now: Time)
    requires Registered(h)
    ensures Registered(Next(h, Register(s, now)))
  {
    hide Distinct, MapsAgree;
    if s in h.serving && h.serving[s] == Accepted {
      PhaseKeepsDistinct(h.serving, s, Running);
      RegisterAgrees(h, s, now);
    }
  }

  lemma UnregisterKeepsMaps(h: Hub, c: ClientId, conn: Conn)
    requires Registered(h)
    ensures Registered(DoUnregister(h, c, conn))
  {
  }

  /** Only the live session may own the entry that its client id maps to. */
  lemma OwnerIsLive(h: Hub, s: Session)
    requires Registered(h) && s in h.serving
    ensures IsCurrent(h.reg, s.client, s.conn) <==> Live(h.current, s)
    ensures s.client in h.reg.queues && h.reg.queues[s.client] == s.queue <==> Live(h.current, s)
  {
    if s.client in h.current {
      assert Belongs(h.reg, h.serving, h.since, s.client, h.current[s.client]);
    }
  }

  /** Changing the phase of a session that is not live disturbs nothing. */
  lemma PhaseKeepsMaps(h: Hub, s: Session, phase: Phase)
    requires Registered(h) && s in h.serving && !Live(h.current, s)
    ensures Registered(h.(serving := h.serving[s := phase]))
  {
    var serving := h.serving[s := phase];
    forall c | c in h.current ensures Belongs(h.reg, serving, h.since, c, h.current[c]) {
      assert Belongs(h.reg, h.serving, h.since, c, h.current[c]);
      assert h.current[c] != s;
    }
  }

  lemma ExitKeepsMaps(h: Hub, s: Session)
    requires Registered(h)
    ensures Registered(Next(h, Exit(s)))
  {
    if s in h.serving && h.serving[s] == Running {
      var u := DoUnregister(h, s.client, s.conn);
      UnregisterKeepsMaps(h, s.client, s.conn);
      OwnerIsLive(h, s);
      PhaseKeepsMaps(u, s, Exited);
    }
  }

  /** The deferred cleanup of serveTransport never takes a queue away from a session that is live:
      by then its own session is not the live one. */
  lemma DropKeepsMaps(h: Hub, s: Session)
    requires Registered(h)
    ensures Registered(Next(h, Drop(s)))
    ensures Next(h, Drop(s)).reg == h.reg
  {
    if s in h.serving && h.serving[s] == Exited {
      OwnerIsLive(h, s);
      PhaseKeepsMaps(h, s, Finished);
    }
  }

  lemma KeepsMaps(h: Hub, step: Step)
    requires Registered(h)
    ensures Registered(Next(h, step))
  {
    match step
    case Accept(s) => AcceptKeepsMaps(h, s);
    case Register(s, now) => RegisterKeepsMaps(h, s, now);
    case Unregister(c, conn) => UnregisterKeepsMaps(h, c, conn);
    case Exit(s) => ExitKeepsMaps(h, s);
    case Drop(s) => DropKeepsMaps(h, s);
    case _ =>
  }

  // ---------- teardown ----------

  ghost predicate Accounted(h: Hub, s: Session) {
    && h.notified[s] + h.owedNotify[s] == (if Ended(h.serving, h.current, s) then 1 else 0)
    && (Ended(h.serving, h.current, s) ==> s.queue in h.closed || s.queue in h.owedClose)
  }

  /** Each session that stopped being current has exactly one disconnect notification, given or owed, and
      a queue that is closed or about to be; a session that did not has no notification. */
  ghost predicate TeardownAccounted(h: Hub) {
    forall s :: Accounted(h, s)
  }

  lemma AcceptAccounts(h: Hub, s: Session, t: Session)
    requires Linked(h, s.client) && Accounted(h, t) && Unused(h, s)
    ensures Accounted(Next(h, Accept(s)), t)
  {
    assert s !in h.serving;
    assert !Live(h.current, s);
  }

  lemma RegisterAccounts(h: Hub, s: Session, now: Time, t: Session)
    requires Linked(h, s.client) && Accounted(h, t)
    requires s in h.serving && h.serving[s] == Accepted
    ensures Accounted(DoRegister(h, s, now), t)
  {
    var k := DoRegister(h, s, now);
    if s.client in h.current {
      assert k.owedClose == h.owedClose + multiset{h.current[s.client].queue};
      assert k.owedNotify == h.owedNotify + multiset{h.current[s.client]};
    }
  }

  lemma UnregisterAccounts(h: Hub, c: ClientId, conn: Conn, t: Session)
    requires Linked(h, c) && Accounted(h, t)
    ensures Accounted(DoUnregister(h, c, conn), t)
  {
  }

  /** Moving a session that is not live from one later phase to another changes no account. */
  lemma PhaseAccounts(h: Hub, s: Session, phase: Phase, closed: set<Queue>, t: Session)
    requires Accounted(h, t)
    requires s in h.serving && h.serving[s] != Accepted && phase != Accepted && h.closed <= closed
    ensures Accounted(h.(serving := h.serving[s := phase], closed := closed), t)
  {
  }

  lemma ExitAccounts(h: Hub, s: Session, t: Session)
    requires Linked(h, s.client) && Accounted(h, t)
    ensures Accounted(Next(h, Exit(s)), t)
  {
    if s in h.serving && h.serving[s] == Running {
      var u := DoUnregister(h, s.client, s.conn);
      UnregisterAccounts(h, s.client, s.conn, t);
      PhaseAccounts(u, s, Exited, u.closed, t);
    }
  }

  lemma MarkAccounts(h: Hub, step: Step, t: Session)
    requires step.BeginOnline? || step.BeginOffline? || step.FinishMark?
    requires Accounted(h, t)
    ensures Accounted(Next(h, step), t)
  {
  }

  lemma CloseAccounts(h: Hub, queue: Queue, t: Session)
    requires Accounted(h, t)
    ensures Accounted(Next(h, CloseQueue(queue)), t)
  {
  }

  lemma NotifyAccounts(h: Hub, s: Session, t: Session)
    requires Accounted(h, t)
    ensures Accounted(Next(h, Notify(s)), t)
  {
  }

  lemma StepAccounts(h: Hub, step: Step, t: Session)
    requires Accounted(h, t)
    requires step.Accept? || step.Register? || step.Exit? ==> Linked(h, step.session.client)
    requires step.Unregister? ==> Linked(h, step.client)
    requires step.Drop? ==> Next(h, step).reg == h.reg
    ensures Accounted(Next(h, step), t)
  {
    match step
    case Accept(s) =>
      if Unused(h, s) { AcceptAccounts(h, s, t); }
    case Register(s, now) =>
      if s in h.serving && h.serving[s] == Accepted { RegisterAccounts(h, s, now, t); }
    case Unregister(c, conn) => UnregisterAccounts(h, c, conn, t);
    case Exit(s) => ExitAccounts(h, s, t);
    case Drop(s) =>
      if s in h.serving && h.serving[s] == Exited {
        PhaseAccounts(h, s, Finished, h.closed + {s.queue}, t);
      }
    case CloseQueue(q) => CloseAccounts(h, q, t);
    case Notify(s) => NotifyAccounts(h, s, t);
    case _ => MarkAccounts(h, step, t);
  }

  lemma KeepsTeardown(h: Hub, step: Step)
    requires Registered(h) && TeardownAccounted(h)
    ensures TeardownAccounted(Next(h, step))
  {
    var k := Next(h, step);
    if step.Drop? { DropKeepsMaps(h, step.session); }
    forall t ensures Accounted(k, t) {
      assert Accounted(h, t);
      StepAccounts(h, step, t);
    }
  }

  // ---------- stored status ----------

  ghost predicate Touched(serving: map<Session, Phase>, c: ClientId) {
    exists s :: s in serving && s.client == c
  }

  /** A session of the client has said hello and is not registered yet. */
  ghost predicate Arriving(serving: map<Session, Phase>, c: ClientId) {
    exists s :: s in serving && s.client == c && serving[s] == Accepted
  }

  ghost predicate OnlineMarkOwed(h: Hub, s: Session) {
    s in h.owedOnline || h.lock == WritingOnline(s)
  }

  ghost predicate OfflineMarkOwed(h: Hub, c: ClientId) {
    c in h.owedOffline || h.lock == WritingOffline(c)
  }

  ghost predicate AboutToStoreOnline(h: Hub, c: ClientId) {
    h.lock.WritingOnline? && h.lock.session.client == c
  }

  /** What the stored status of one client may be. A stored status that disagrees with the maps, or a
      pending write that would make it disagree, has a later correcting mark that is still owed.
      The row of a client that never said hello is as it was stored before the start. */
  ghost predicate StatusOf(h: Hub, stored: set<ClientId>, c: ClientId) {
    if c in h.current then
      OnlineMarkOwed(h, h.current[c]) || (c in h.online && h.lock != WritingOffline(c))
    else if Touched(h.serving, c) then
      OfflineMarkOwed(h, c) || Arriving(h.serving, c) || (c !in h.online && !AboutToStoreOnline(h, c))
    else
      && (c in h.online <==> c in stored)
      && !OfflineMarkOwed(h, c)
      && !AboutToStoreOnline(h, c)
      && forall s | s in h.owedOnline :: s.client != c
  }

  lemma KeepsTouched(h: Hub, step: Step, c: ClientId)
    requires Touched(h.serving, c)
    ensures Touched(Next(h, step).serving, c)
  {
    var s :| s in h.serving && s.client == c;
    assert s in Next(h, step).serving;
  }

  lemma AcceptedStays(h: Hub, step: Step, s: Session)
    requires s in h.serving && h.serving[s] == Accepted && !(step.Register? && step.session == s)
    ensures s in Next(h, step).serving && Next(h, step).serving[s] == Accepted
  {
  }

  /** Only registering ends the arrival of a client. */
  lemma KeepsArriving(h: Hub, step: Step, c: ClientId)
    requires Arriving(h.serving, c)
    ensures Arriving(Next(h, step).serving, c) || (step.Register? && step.session.client == c)
  {
    hide Next;
    var s :| s in h.serving && s.client == c && h.serving[s] == Accepted;
    if !(step.Register? && step.session.client == c) {
      AcceptedStays(h, step, s);
    }
  }

  lemma RegisterStatus(h: Hub, stored: set<ClientId>, s: Session, now: Time, c: ClientId)
    requires StatusOf(h, stored, c)
    requires Linked(h, s.client)
    requires s in h.serving && h.serving[s] == Accepted
    requires c != s.client && Touched(h.serving, c) ==> Touched(DoRegister(h, s, now).serving, c)
    requires c != s.client && Arriving(h.serving, c) ==> Arriving(DoRegister(h, s, now).serving, c)
    ensures StatusOf(DoRegister(h, s, now), stored, c)
  {
  }

  lemma UnregisterStatus(h: Hub, stored: set<ClientId>, client: ClientId, conn: Conn, c: ClientId)
    requires Linked(h, client) && StatusOf(h, stored, c)
    ensures StatusOf(DoUnregister(h, client, conn), stored, c)
  {
    var k := DoUnregister(h, client, conn);
    if Touched(h.serving, c) { assert Touched(k.serving, c); }
    if Arriving(h.serving, c) { assert Arriving(k.serving, c); }
  }

  /** The check of markClientOnline: the mark it drops is not the one the current session is owed. */
  lemma BeginOnlineStatus(h: Hub, stored: set<ClientId>, s: Session, c: ClientId)
    requires Linked(h, c) && StatusOf(h, stored, c)
    ensures StatusOf(Next(h, BeginOnline(s)), stored, c)
  {
  }

  /** The check of markClientOffline: the mark it drops is one for a client that is connected again. */
  lemma BeginOfflineStatus(h: Hub, stored: set<ClientId>, client: ClientId, c: ClientId)
    requires Linked(h, c) && StatusOf(h, stored, c)
    ensures StatusOf(Next(h, BeginOffline(client)), stored, c)
  {
  }

  lemma FinishMarkStatus(h: Hub, stored: set<ClientId>, c: ClientId)
    requires Linked(h, c) && StatusOf(h, stored, c)
    ensures StatusOf(Next(h, FinishMark), stored, c)
  {
  }

  lemma AcceptStatus(h: Hub, stored: set<ClientId>, s: Session, c: ClientId)
    requires StatusOf(h, stored, c) && Unused(h, s)
    ensures StatusOf(Next(h, Accept(s)), stored, c)
  {
    var k := Next(h, Accept(s));
    assert s in k.serving;
    if Touched(h.serving, c) { KeepsTouched(h, Accept(s), c); }
    if Arriving(h.serving, c) { KeepsArriving(h, Accept(s), c); }
  }

  /** Moving a session from one later phase to another changes no status. */
  lemma PhaseStatus(h: Hub, stored: set<ClientId>, s: Session, phase: Phase, c: ClientId)
    requires StatusOf(h, stored, c)
    requires s in h.serving && h.serving[s] != Accepted && phase != Accepted
    ensures StatusOf(h.(serving := h.serving[s := phase]), stored, c)
  {
    var k := h.(serving := h.serving[s := phase]);
    if Touched(h.serving, c) { assert Touched(k.serving, c); }
    if Arriving(h.serving, c) { assert Arriving(k.serving, c); }
  }

  lemma StepStatus(h: Hub, stored: set<ClientId>, step: Step, c: ClientId)
    requires Linked(h, c) && StatusOf(h, stored, c)
    requires step.Register? || step.Exit? ==> Linked(h, step.session.client)
    requires step.Unregister? ==> Linked(h, step.client)
    requires step.Drop? ==> Next(h, step).reg == h.reg
    ensures StatusOf(Next(h, step), stored, c)
  {
    match step
    case Accept(s) => if Unused(h, s) { AcceptStatus(h, stored, s, c); }
    case Register(s, now) =>
      if s in h.serving && h.serving[s] == Accepted {
        if Touched(h.serving, c) { KeepsTouched(h, step, c); }
        if Arriving(h.serving, c) { KeepsArriving(h, step, c); }
        RegisterStatus(h, stored, s, now, c);
      }
    case Unregister(client, conn) => UnregisterStatus(h, stored, client, conn, c);
    case Exit(s) =>
      if s in h.serving && h.serving[s] == Running {
        UnregisterStatus(h, stored, s.client, s.conn, c);
        PhaseStatus(DoUnregister(h, s.client, s.conn), stored, s, Exited, c);
      }
    case Drop(s) =>
      if s in h.serving && h.serving[s] == Exited { PhaseStatus(h, stored, s, Finished, c); }
    case BeginOnline(s) => BeginOnlineStatus(h, stored, s, c);
    case BeginOffline(client) => BeginOfflineStatus(h, stored, client, c);
    case FinishMark => FinishMarkStatus(h, stored, c);
    case _ =>
  }

  // ---------- every run ----------

  ghost predicate Inv(h: Hub, stored: set<ClientId>) {
    && Registered(h)
    && TeardownAccounted(h)
    && forall c :: StatusOf(h, stored, c)
  }

  lemma LinkedAll(h: Hub)
    requires Registered(h)
    ensures forall c :: Linked(h, c)
  {
  }

  lemma NextInv(h: Hub, stored: set<ClientId>, step: Step)
    requires Inv(h, stored)
    ensures Inv(Next(h, step), stored)
  {
    KeepsMaps(h, step);
    KeepsTeardown(h, step);
    LinkedAll(h);
    if step.Drop? { DropKeepsMaps(h, step.session); }
    forall c ensures StatusOf(Next(h, step), stored, c) { StepStatus(h, stored, step, c); }
  }

  lemma {:induction false} RunInv(stored: set<ClientId>, steps: seq<Step>)
    ensures Inv(Run(Start(stored), steps), stored)
  {
    if steps != [] {
      RunInv(stored, steps[..|steps| - 1]);
      NextInv(Run(Start(stored), steps[..|steps| - 1]), stored, steps[|steps| - 1]);
    }
  }

  /** In every reachable state the three maps have the same keys, and a client's three entries
      come from one session, which is its live one. */
  lemma {:induction false} MapsBelongTogether(stored: set<ClientId>, steps: seq<Step>)
    ensures var h := Run(Start(stored), steps);
            && h.reg.conns.Keys == h.reg.connected.Keys == h.reg.queues.Keys == h.current.Keys
            && forall c | c in h.reg.conns ::
                 var s := h.current[c];
                 && s.client == c && h.reg.conns[c] == s.conn && h.reg.queues[c] == s.queue
                 && s in h.since && h.reg.connected[c] == h.since[s]
  {
    RunInv(stored, steps);
    var h := Run(Start(stored), steps);
    forall c | c in h.current ensures Belongs(h.reg, h.serving, h.since, c, h.current[c]) {}
  }

  /** The live session of a client with all its map entries in place. */
  ghost predicate InPlace(h: Hub, live: Session) {
    && Live(h.current, live)
    && IsCurrent(h.reg, live.client, live.conn)
    && Get(h.reg.queues, live.client) == Some(live.queue)
    && live in h.since && Get(h.reg.connected, live.client) == Some(h.since[live])
  }

  lemma UnregisterSpares(h: Hub, c: ClientId, conn: Conn, live: Session)
    requires InPlace(h, live) && !(c == live.client && conn == live.conn)
    ensures InPlace(DoUnregister(h, c, conn), live)
  {
  }

  /** Tearing down one session, however late, leaves every other live session exactly where it is. */
  lemma {:induction false} TeardownSparesOthers(stored: set<ClientId>, steps: seq<Step>,
                                                previous: Session, live: Session, step: Step)
    requires var h := Run(Start(stored), steps);
             previous in h.serving && Live(h.current, live) && previous != live
    requires step == Exit(previous) || step == Drop(previous) || step == Unregister(previous.client, previous.conn)
    ensures InPlace(Next(Run(Start(stored), steps), step), live)
  {
    RunInv(stored, steps);
    var h := Run(Start(stored), steps);
    assert Belongs(h.reg, h.serving, h.since, live.client, live);
    assert previous.conn != live.conn;
    assert InPlace(h, live);
    match step
    case Exit(_) => UnregisterSpares(h, previous.client, previous.conn, live);
    case Unregister(_, _) => UnregisterSpares(h, previous.client, previous.conn, live);
    case Drop(_) => DropKeepsMaps(h, previous);
  }

  /** Once nothing is owed, each session that stopped being current was reported exactly once and has
      its queue closed, and no other session was reported. */
  lemma {:induction false} TeardownCompletes(stored: set<ClientId>, steps: seq<Step>, s: Session)
    requires var h := Run(Start(stored), steps);
             h.owedNotify == multiset{} && h.owedClose == multiset{}
    ensures var h := Run(Start(stored), steps);
            && h.notified[s] == (if Ended(h.serving, h.current, s) then 1 else 0)
            && (Ended(h.serving, h.current, s) ==> s.queue in h.closed)
  {
    RunInv(stored, steps);
    assert Accounted(Run(Start(stored), steps), s);
  }

  /** A stored status that disagrees with the maps always has its correcting mark still to come: for a
      connected client the mark of its live session, for a client without a connection an offline mark,
      or the registration of a session that has just said hello. */
  lemma {:induction false} DisagreementIsOwed(stored: set<ClientId>, steps: seq<Step>, c: ClientId)
    ensures var h := Run(Start(stored), steps);
            && (c in h.reg.conns && c !in h.online ==>
                  c in h.current && OnlineMarkOwed(h, h.current[c]))
            && (c !in h.reg.conns && c in h.online && Touched(h.serving, c) ==>
                  OfflineMarkOwed(h, c) || Arriving(h.serving, c))
  {
    RunInv(stored, steps);
    var h := Run(Start(stored), steps);
    assert StatusOf(h, stored, c);
  }

  /** No session is between hello and registration and no mark is unfinished. */
  ghost predicate Quiet(h: Hub) {
    && h.lock.Free? && h.owedOnline == multiset{} && h.owedOffline == multiset{}
    && forall s | s in h.serving :: h.serving[s] != Accepted
  }

  /** At every quiescent point the stored status of a client that ever said hello is "online" exactly
      when the hub holds a connection for it. The server does not reset the column when it starts, so a
      client that never said hello keeps the status it was stored with. */
  lemma {:induction false} StatusAgreesWhenQuiet(stored: set<ClientId>, steps: seq<Step>, c: ClientId)
    requires Quiet(Run(Start(stored), steps))
    ensures var h := Run(Start(stored), steps);
            c in h.online <==> if Touched(h.serving, c) then c in h.reg.conns else c in stored
  {
    RunInv(stored, steps);
    var h := Run(Start(stored), steps);
    assert StatusOf(h, stored, c);
    if c in h.current { assert Belongs(h.reg, h.serving, h.since, c, h.current[c]); }
  }

  /** An uninterrupted Disconnect of a connected client leaves no entry of it and owes exactly one close of the live
      session's queue, one notification of that session and one offline mark. */
  lemma {:induction false} UninterruptedDisconnect(stored: set<ClientId>, steps: seq<Step>, c: ClientId)
    requires c in Run(Start(stored), steps).reg.conns
    ensures var h := Run(Start(stored), steps);
            var k := Next(h, Unregister(c, h.reg.conns[c]));
            && c in h.current && c !in k.reg.conns && c !in k.reg.connected && c !in k.reg.queues && c !in k.current
            && k.owedClose == h.owedClose + multiset{h.current[c].queue}
            && k.owedNotify == h.owedNotify + multiset{h.current[c]}
            && k.owedOffline == h.owedOffline + multiset{c}
  {
    RunInv(stored, steps);
    DisconnectOwes(Run(Start(stored), steps), c);
  }

  lemma DisconnectOwes(h: Hub, c: ClientId)
    requires Registered(h) && c in h.reg.conns
    ensures var k := Next(h, Unregister(c, h.reg.conns[c]));
            && c in h.current && c !in k.reg.conns && c !in k.reg.connected && c !in k.reg.queues && c !in k.current
            && k.owedClose == h.owedClose + multiset{h.current[c].queue}
            && k.owedNotify == h.owedNotify + multiset{h.current[c]}
            && k.owedOffline == h.owedOffline + multiset{c}
  {
    assert Belongs(h.reg, h.serving, h.since, c, h.current[c]);
  }

  /** The two steps of a mark, run without interruption, are the class's method. */
  lemma UninterruptedMarks(h: Hub, s: Session, c: ClientId)
    requires h.lock.Free?
    ensures s in h.owedOnline ==>
              Next(Next(h, BeginOnline(s)), FinishMark).online
              == h.online + if IsCurrent(h.reg, s.client, s.conn) then {s.client} else {}
    ensures c in h.owedOffline ==>
              Next(Next(h, BeginOffline(c)), FinishMark).online == h.online - if c in h.reg.conns then {} else {c}
  {
  }
}
