/** The visitor sessions of one UDP tunnel and their direct paths
    (server/tunnel/udp_runtime.go, udp_routing.go, p2p_udp.go). */
module UdpSessions {
  import opened Options

  type Addr = nat   // the printed form of an address
  type Id = nat     // a fresh uuid
  type Time = int

  const MAX_SESSIONS: nat := 65536

  // ---------- the runtime's tables ----------

  class Session {
    const id: Id
    const addr: Addr
    var lastSeen: Time
    var closed: bool  // closeP2P ran

    constructor (id: Id, addr: Addr, now: Time)
      ensures this.id == id && this.addr == addr && lastSeen == now && !closed
    {
      this.id, this.addr, lastSeen, closed := id, addr, now, false;
    }
  }

  /** The two indexes are inverse to each other. */
  ghost predicate Twins(sessions: map<Addr, Session>, byID: map<Id, Session>) {
    && (forall a | a in sessions :: sessions[a].addr == a && sessions[a].id in byID && byID[sessions[a].id] == sessions[a])
    && (forall i | i in byID :: byID[i].id == i && byID[i].addr in sessions && sessions[byID[i].addr] == byID[i])
  }

  /** Deleting one session from both indexes keeps them inverse and takes away one entry of each. */
  lemma TwinsWithout(sessions: map<Addr, Session>, byID: map<Id, Session>, s: Session)
    requires Twins(sessions, byID) && s.addr in sessions && sessions[s.addr] == s
    ensures Twins(sessions - {s.addr}, byID - {s.id})
    ensures |sessions - {s.addr}| == |sessions| - 1
  {
    assert (sessions - {s.addr}).Keys == sessions.Keys - {s.addr};
  }

  lemma TwinsAddresses(sessions: map<Addr, Session>, byID: map<Id, Session>)
    requires Twins(sessions, byID)
    ensures forall a <- sessions.Keys :: sessions[a].addr == a
  {
  }

  function At(sessions: map<Addr, Session>, addrs: set<Addr>): set<Session> {
    set a | a in addrs && a in sessions :: sessions[a]
  }

  lemma OneMoreGone(m: map<Addr, Session>, gone: set<Addr>, key: Addr)
    requires key in m
    ensures m - (gone + {key}) == m - gone - {key}
    ensures At(m, gone + {key}) == At(m, gone) + {m[key]}
  {
  }

  lemma NoneAt(sessions: map<Addr, Session>)
    ensures At(sessions, {}) == {}
  {
  }

  lemma AtExactly(sessions: map<Addr, Session>, addrs: set<Addr>)
    requires forall a <- sessions.Keys :: sessions[a].addr == a
    ensures At(sessions, addrs) <= sessions.Values
    ensures forall a <- sessions.Keys :: sessions[a] in At(sessions, addrs) <==> a in addrs
  {
  }

  class Runtime {
    var sessions: map<Addr, Session>
    var byID: map<Id, Session>
    var active: int    // this runtime's share of the manager's counter
    var p2pCount: nat

    ghost predicate Valid()
      reads this
    {
      Twins(sessions, byID) && active == |sessions|
    }

    constructor ()
      ensures Valid() && sessions == map[] && byID == map[] && active == 0 && p2pCount == 0
    {
      sessions, byID, active, p2pCount := map[], map[], 0, 0;
    }

    /** `unused` is the uuid for a new session. */
    method SessionFor(addr: Addr, now: Time, unused: Id) returns (session: Option<Session>)
      requires Valid() && unused !in byID
      modifies this`sessions, this`byID, this`active, sessions.Values`lastSeen
      ensures Valid()
      ensures addr in old(sessions) ==>
                && session == Some(old(sessions)[addr]) && session.value.lastSeen == now
                && sessions == old(sessions) && byID == old(byID)
      ensures addr !in old(sessions) && |old(sessions)| >= 65536 ==>
                session == None && sessions == old(sessions) && byID == old(byID)
      ensures addr !in old(sessions) && |old(sessions)| < 65536 ==>
                && session.Some? && fresh(session.value) && session.value.id == unused && session.value.lastSeen == now
                && sessions == old(sessions)[addr := session.value] && byID == old(byID)[unused := session.value]
      ensures forall s <- old(sessions).Values :: session != Some(s) ==> s.lastSeen == old(s.lastSeen)
    {
      if addr !in sessions {
        if |sessions| >= MAX_SESSIONS {
          return None;
        }
        var created := new Session(unused, addr, now);
        sessions := sessions[addr := created];
        byID := byID[unused := created];
        active := active + 1;
        return Some(created);
      }
      sessions[addr].lastSeen := now;
      return Some(sessions[addr]);
    }

    method FindSession(id: Id, now: Time) returns (session: Option<Session>)
      requires Valid()
      modifies byID.Values`lastSeen
      ensures session == if id in byID then Some(byID[id]) else None
      ensures session.Some? ==> session.value.lastSeen == now
      ensures forall s <- byID.Values :: session != Some(s) ==> s.lastSeen == old(s.lastSeen)
      ensures Valid()
    {
      if id !in byID {
        return None;
      }
      byID[id].lastSeen := now;
      return Some(byID[id]);
    }

    /** Deletes a session from both indexes. */
    method Delete(session: Session)
      requires Valid() && session.addr in sessions && sessions[session.addr] == session
      modifies this`sessions, this`byID, this`active
      ensures Valid()
      ensures sessions == old(sessions) - {session.addr} && byID == old(byID) - {session.id}
    {
      TwinsWithout(sessions, byID, session);
      sessions := sessions - {session.addr};
      byID := byID - {session.id};
      active := active - 1;
    }

    method RemoveSession(id: Id)
      requires Valid()
      modifies this`sessions, this`byID, this`active, byID.Values`closed
      ensures Valid()
      ensures id !in old(byID) ==> byID == old(byID) && sessions == old(sessions)
      ensures id in old(byID) ==>
                && byID == old(byID) - {id} && sessions == old(sessions) - {old(byID)[id].addr}
                && old(byID)[id].closed
      ensures forall s <- old(byID).Values :: s.id != id ==> s.closed == old(s.closed)
    {
      if id !in byID {
        return;
      }
      var session := byID[id];
      Delete(session);
      session.closed := true;
    }

    ghost function Stale(cutoff: Time): set<Addr>
      reads this`sessions, sessions.Values`lastSeen
    {
      set a | a in sessions && sessions[a].lastSeen < cutoff
    }

    method RemoveIdle(cutoff: Time)
      requires Valid()
      modifies this`sessions, this`byID, this`active, sessions.Values`closed
      ensures Valid()
      ensures sessions == old(sessions) - old(Stale(cutoff))
      ensures forall a <- old(sessions).Keys :: a in sessions <==> old(sessions[a].lastSeen) >= cutoff
      ensures forall a <- old(sessions).Keys ::
                old(sessions)[a].closed == (old(sessions[a].lastSeen) < cutoff || old(sessions[a].closed))
    {
      var removed := CollectIdle(cutoff, Stale(cutoff));
      CloseAll(removed);
    }

    /** The part of removeIdle that runs under the lock. */
    method CollectIdle(cutoff: Time, ghost stale: set<Addr>) returns (removed: set<Session>)
      requires Valid() && stale == Stale(cutoff)
      modifies this`sessions, this`byID, this`active
      ensures Valid()
      ensures sessions == old(sessions) - stale
      ensures removed <= old(sessions).Values
      ensures forall a <- old(sessions).Keys :: old(sessions)[a] in removed <==> a in stale
    {
      hide Twins, At;
      TwinsAddresses(sessions, byID);
      ghost var was, gone := sessions, {};
      removed := {};
      NoneAt(was);
      var unseen := sessions.Keys;
      while unseen != {}
        invariant Valid() && unseen <= was.Keys
        invariant gone <= stale <= gone + unseen && gone !! unseen && sessions == was - gone
        invariant forall a <- was.Keys :: was[a].addr == a
        invariant removed == At(was, gone)
        modifies this`sessions, this`byID, this`active
      {
        var key :| key in unseen;
        unseen := unseen - {key};
        var session := sessions[key];
        if session.lastSeen < cutoff {
          Delete(session);
          removed := removed + {session};
          OneMoreGone(was, gone, key);
          gone := gone + {key};
        }
      }
      AtExactly(was, gone);
    }

    method ClearSessions()
      requires Valid()
      modifies this`sessions, this`byID, this`active, sessions.Values`closed
      ensures Valid() && sessions == map[] && byID == map[]
      ensures forall s <- old(sessions).Values :: s.closed
    {
      var count := |sessions|;
      var removed := sessions.Values;
      sessions, byID := map[], map[];
      CloseAll(removed);
      active := active - count;
    }

    static method CloseAll(removed: set<Session>)
      modifies removed`closed
      ensures forall s <- removed :: s.closed
    {
      var rest := removed;
      while rest != {}
        invariant rest <= removed
        invariant forall s <- removed - rest :: s.closed
      {
        var s :| s in rest;
        rest := rest - {s};
        s.closed := true;
      }
      assert removed - rest == removed;
    }

    method AcquireP2P() returns (ok: bool)
      modifies this`p2pCount
      ensures ok && p2pCount == old(p2pCount) + 1
    {
      p2pCount := p2pCount + 1;
      ok := true;
    }

    method ReleaseP2P()
      modifies this`p2pCount
      ensures p2pCount == if old(p2pCount) > 0 then old(p2pCount) - 1 else 0
    {
      if p2pCount > 0 {
        p2pCount := p2pCount - 1;
      }
    }
  }

  // ---------- one runtime, over every interleaving ----------

  /** `addrOf` has every session this runtime ever made; `uncounted` are the removals whose decrement of the active
      counter is to come. */
  datatype Tables = Tables(
    sessions: map<Addr, Id>, byID: map<Id, Addr>, addrOf: map<Id, Addr>, lastSeen: map<Id, Time>,
    uncounted: nat, active: int)

  /** A session's own lock is held while it is in `opening` (openP2PUDP) or `tripping` (directRoundTrip). Those in
      `charged` have their path or attempt counted on this runtime. `closing` are the closeP2P calls to come,
      `releasing` the detached paths whose close, and so release on this runtime, is to come. */
  datatype Paths = Paths(
    opening: set<Id>, tripping: set<Id>, direct: set<Id>, charged: set<Id>, closed: set<Id>,
    closing: multiset<Id>, releasing: nat, p2pCount: nat)

  /** One runtime of a tunnel, from its start to after its shutdown. The tunnel may have had a runtime before and
      may get one afterwards; their sessions are foreign. A session looks its runtime up by the tunnel when it opens
      a direct path, so a foreign session may be counted here, and a session of this runtime on its successor.
      `linked` tells whether the manager finds this runtime under the tunnel, `shut` whether close ran. */
  datatype State = State(tables: Tables, paths: Paths, foreign: set<Id>, linked: bool, shut: bool)

  const EMPTY := State(
    Tables(map[], map[], map[], map[], 0, 0), Paths({}, {}, {}, {}, {}, multiset{}, 0, 0), {}, true, false)

  datatype TableStep =
    | Packet(addr: Addr, unused: Id, now: Time)   // session()
    | Find(id: Id, now: Time)
    | CountDown                                   // manager.active.Add(-1)

  datatype Removal =
    | Remove(id: Id)
    | Reap(cutoff: Time)                          // removeIdle
    | Clear

  datatype PathStep =
    | TryP2P(id: Id)
    | OpenFailed(id: Id)
    | Opened(id: Id)
    | TripOk(id: Id)
    | TripFailed(id: Id)
    | CloseP2P(id: Id)
    | Release

  datatype Step =
    | OnTables(table: TableStep)
    | OnPaths(path: PathStep)
    | Removing(removal: Removal)
    | Unlink                                      // the manager forgets the runtime, and may start another one
    | Shutdown                                    // close
    | Appear(id: Id)                              // a session of another runtime
    | Abandon(id: Id)                             // the other runtime is going to close it

  predicate Known(s: State, id: Id) {
    id in s.tables.addrOf || id in s.foreign
  }

  predicate Creates(t: Tables, foreign: set<Id>, step: TableStep) {
    && step.Packet? && step.addr !in t.sessions && |t.sessions| < MAX_SESSIONS
    && step.unused !in t.addrOf && step.unused !in foreign
  }

  function TablesAfter(t: Tables, foreign: set<Id>, step: TableStep): Tables {
    match step
    case Packet(addr, unused, now) =>
      if addr in t.sessions then t.(lastSeen := t.lastSeen[t.sessions[addr] := now])
      else if !Creates(t, foreign, step) then t
      else
        t.(sessions := t.sessions[addr := unused], byID := t.byID[unused := addr], addrOf := t.addrOf[unused := addr],
           lastSeen := t.lastSeen[unused := now], active := t.active + 1)
    case Find(id, now) => if id in t.byID then t.(lastSeen := t.lastSeen[id := now]) else t
    case CountDown => if t.uncounted > 0 then t.(uncounted := t.uncounted - 1, active := t.active - 1) else t
  }

  /** The addresses whose sessions are removed. */
  function Leaving(t: Tables, removal: Removal): set<Addr> {
    match removal
    case Remove(id) => if id in t.byID && t.byID[id] in t.sessions then {t.byID[id]} else {}
    case Reap(cutoff) =>
      set a | a in t.sessions && t.sessions[a] in t.lastSeen && t.lastSeen[t.sessions[a]] < cutoff
    case Clear => t.sessions.Keys
  }

  function IdsAt(t: Tables, addrs: set<Addr>): set<Id> {
    set a | a in addrs && a in t.sessions :: t.sessions[a]
  }

  /** Only removeIdle counts down under the lock. */
  function Without(t: Tables, removal: Removal): Tables {
    var addrs := Leaving(t, removal);
    var left := t.(sessions := t.sessions - addrs, byID := t.byID - IdsAt(t, addrs));
    if removal.Reap? then left.(active := t.active - |addrs|) else left.(uncounted := t.uncounted + |addrs|)
  }

  function CountedDown(count: nat): nat {
    if count > 0 then count - 1 else 0
  }

  /** The release of a path goes to the runtime that counted it. */
  function Uncharged(p: Paths, id: Id): Paths {
    if id in p.charged then p.(charged := p.charged - {id}, p2pCount := CountedDown(p.p2pCount)) else p
  }

  predicate Busy(p: Paths, id: Id) {
    id in p.opening || id in p.tripping
  }

  function PathsAfter(p: Paths, linked: bool, step: PathStep): Paths {
    match step
    case TryP2P(id) =>
      if Busy(p, id) || id in p.closed then p
      else if id in p.direct then p.(tripping := p.tripping + {id})
      else if linked then p.(opening := p.opening + {id}, charged := p.charged + {id}, p2pCount := p.p2pCount + 1)
      else p.(opening := p.opening + {id})
    case OpenFailed(id) =>
      if id in p.opening then Uncharged(p.(opening := p.opening - {id}), id) else p
    case Opened(id) =>
      if id in p.opening
      then p.(opening := p.opening - {id}, direct := p.direct + {id}, tripping := p.tripping + {id}) else p
    case TripOk(id) => p.(tripping := p.tripping - {id})
    case TripFailed(id) =>
      if id in p.tripping && id in p.direct
      then Uncharged(p.(tripping := p.tripping - {id}, direct := p.direct - {id}), id) else p
    case CloseP2P(id) =>
      if id in p.closing && !Busy(p, id) then
        p.(closing := p.closing - multiset{id}, closed := p.closed + {id}, direct := p.direct - {id},
           charged := p.charged - {id}, releasing := p.releasing + if id in p.charged then 1 else 0)
      else p
    case Release =>
      if p.releasing > 0 then p.(releasing := p.releasing - 1, p2pCount := CountedDown(p.p2pCount)) else p
  }

  function Closing(p: Paths, ids: set<Id>): Paths {
    p.(closing := p.closing + multiset(ids))
  }

  function Removed(s: State, removal: Removal): State {
    s.(tables := Without(s.tables, removal), paths := Closing(s.paths, IdsAt(s.tables, Leaving(s.tables, removal))))
  }

  /** A step that is not enabled, or has to wait for a session's lock, leaves the state as it is. */
  function Next(s: State, step: Step): State {
    match step
    case OnTables(table) => s.(tables := TablesAfter(s.tables, s.foreign, table))
    case OnPaths(path) =>
      if path.TryP2P? && !Known(s, path.id) then s else s.(paths := PathsAfter(s.paths, s.linked, path))
    case Removing(removal) => Removed(s, removal)
    case Unlink => s.(linked := false)
    case Shutdown => if s.linked || s.shut then s else Removed(s, Clear).(shut := true)
    case Appear(id) => if Known(s, id) then s else s.(foreign := s.foreign + {id})
    case Abandon(id) => if id in s.foreign then s.(paths := Closing(s.paths, {id})) else s
  }

  function Run(s: State, steps: seq<Step>): State {
    if steps == [] then s else Next(Run(s, steps[..|steps| - 1]), steps[|steps| - 1])
  }

  // ---------- invariants ----------

  /** The two indexes are inverse to each other, and the share of the active counter is the table and what is still
      to be counted down. */
  ghost predicate Inverse(t: Tables) {
    && (forall a | a in t.sessions :: t.sessions[a] in t.byID && t.byID[t.sessions[a]] == a)
    && (forall i | i in t.byID :: t.byID[i] in t.sessions && t.sessions[t.byID[i]] == i)
    && (forall i | i in t.byID :: i in t.addrOf && i in t.lastSeen)
  }

  ghost predicate Shared(t: Tables) {
    t.active == |t.sessions| + t.uncounted && |t.sessions| <= MAX_SESSIONS
  }

  /** The count is the paths charged here, installed or being opened, and those being closed. */
  ghost predicate Counted(p: Paths) {
    p.p2pCount == |p.charged| + p.releasing
  }

  /** How the states of one session exclude each other. */
  ghost predicate Placed(p: Paths, id: Id) {
    && (id in p.charged ==> id in p.opening || id in p.direct)
    && (id in p.opening ==> id !in p.direct && id !in p.tripping && id !in p.closed)
    && (id in p.tripping ==> id in p.direct)
    && (id in p.direct ==> id !in p.closed)
  }

  /** A session of this runtime that left the tables is closed or about to be. */
  ghost predicate Parted(t: Tables, p: Paths, id: Id) {
    id in t.addrOf ==> id in t.byID || id in p.closed || id in p.closing
  }

  ghost predicate PathsKnown(s: State) {
    s.paths.direct + s.paths.opening <= s.tables.addrOf.Keys + s.foreign
  }

  ghost predicate Inv(s: State) {
    && Inverse(s.tables) && Shared(s.tables) && Counted(s.paths) && PathsKnown(s)
    && forall id :: Parted(s.tables, s.paths, id) && Placed(s.paths, id)
  }

  lemma TablesKeep(t: Tables, foreign: set<Id>, step: TableStep)
    requires Inverse(t) && Shared(t)
    ensures Inverse(TablesAfter(t, foreign, step)) && Shared(TablesAfter(t, foreign, step))
    ensures |TablesAfter(t, foreign, step).sessions| == |t.sessions| + if Creates(t, foreign, step) then 1 else 0
    ensures t.addrOf.Keys <= TablesAfter(t, foreign, step).addrOf.Keys
  {
  }

  lemma WithoutInverse(t: Tables, removal: Removal)
    requires Inverse(t)
    ensures Inverse(Without(t, removal))
  {
    var k, addrs := Without(t, removal), Leaving(t, removal);
    forall a | a in k.sessions ensures k.sessions[a] in k.byID {
      assert k.sessions[a] !in IdsAt(t, addrs);
    }
  }

  lemma WithoutShared(t: Tables, removal: Removal)
    requires Shared(t)
    ensures Shared(Without(t, removal)) && |Without(t, removal).sessions| <= |t.sessions|
  {
    var addrs := Leaving(t, removal);
    assert addrs <= t.sessions.Keys;
    assert (t.sessions - addrs).Keys == t.sessions.Keys - addrs;
    assert |(t.sessions - addrs).Keys| == |t.sessions - addrs| && |t.sessions.Keys| == |t.sessions|;
  }

  lemma UnchargedCounts(p: Paths, id: Id)
    requires p.p2pCount == |p.charged| + p.releasing
    ensures Uncharged(p, id) == p.(charged := p.charged - {id}, p2pCount := |p.charged - {id}| + p.releasing)
  {
    if id !in p.charged {
      assert p.charged - {id} == p.charged;
    }
  }

  lemma PathsPlace(p: Paths, linked: bool, step: PathStep, id: Id)
    requires Placed(p, id)
    ensures Placed(PathsAfter(p, linked, step), id)
  {
  }

  lemma TryKeeps(p: Paths, linked: bool, id: Id)
    requires Counted(p) && Placed(p, id)
    ensures Counted(PathsAfter(p, linked, TryP2P(id)))
  {
  }

  lemma CloseKeeps(p: Paths, linked: bool, id: Id)
    requires Counted(p)
    ensures Counted(PathsAfter(p, linked, CloseP2P(id)))
  {
    if id !in p.charged {
      assert p.charged - {id} == p.charged;
    } else {
      assert |p.charged - {id}| == |p.charged| - 1;
    }
  }

  lemma EndKeeps(p: Paths, linked: bool, step: PathStep)
    requires Counted(p) && (step.OpenFailed? || step.TripFailed?)
    ensures Counted(PathsAfter(p, linked, step))
  {
    if step.OpenFailed? {
      UnchargedCounts(p.(opening := p.opening - {step.id}), step.id);
    } else {
      UnchargedCounts(p.(tripping := p.tripping - {step.id}, direct := p.direct - {step.id}), step.id);
    }
  }

  lemma PathsKeep(p: Paths, linked: bool, step: PathStep)
    requires Counted(p) && (step.TryP2P? ==> Placed(p, step.id))
    ensures Counted(PathsAfter(p, linked, step))
  {
    match step
    case TryP2P(id) => TryKeeps(p, linked, id);
    case OpenFailed(_) => EndKeeps(p, linked, step);
    case TripFailed(_) => EndKeeps(p, linked, step);
    case CloseP2P(id) => CloseKeeps(p, linked, id);
    case _ =>
  }

  lemma PathsAdd(p: Paths, linked: bool, step: PathStep, id: Id)
    requires id in PathsAfter(p, linked, step).direct + PathsAfter(p, linked, step).opening
    ensures id in p.direct + p.opening || step == TryP2P(id)
  {
  }

  lemma PathsPart(t: Tables, p: Paths, linked: bool, step: PathStep, id: Id)
    requires Parted(t, p, id)
    ensures Parted(t, PathsAfter(p, linked, step), id)
  {
  }

  lemma WithoutParts(t: Tables, p: Paths, removal: Removal, id: Id)
    requires Inverse(t) && Parted(t, p, id)
    ensures Parted(Without(t, removal), Closing(p, IdsAt(t, Leaving(t, removal))), id)
  {
  }

  lemma TablesPart(t: Tables, p: Paths, foreign: set<Id>, step: TableStep, id: Id)
    requires Parted(t, p, id)
    ensures Parted(TablesAfter(t, foreign, step), p, id)
  {
  }

  lemma RemovedInv(s: State, removal: Removal)
    requires Inv(s)
    ensures Inv(Removed(s, removal))
  {
    WithoutInverse(s.tables, removal);
    WithoutShared(s.tables, removal);
    var k := Removed(s, removal);
    forall id ensures Parted(k.tables, k.paths, id) && Placed(k.paths, id) {
      WithoutParts(s.tables, s.paths, removal, id);
      assert Placed(s.paths, id);
    }
  }

  lemma OnPathsInv(s: State, step: PathStep)
    requires Inv(s) && (step.TryP2P? ==> Known(s, step.id))
    ensures Inv(s.(paths := PathsAfter(s.paths, s.linked, step)))
  {
    hide PathsAfter;
    var p := PathsAfter(s.paths, s.linked, step);
    PathsKeep(s.paths, s.linked, step);
    forall id | id in p.direct + p.opening ensures id in s.tables.addrOf.Keys + s.foreign {
      PathsAdd(s.paths, s.linked, step, id);
    }
    forall id ensures Parted(s.tables, p, id) && Placed(p, id) {
      PathsPart(s.tables, s.paths, s.linked, step, id);
      PathsPlace(s.paths, s.linked, step, id);
    }
  }

  lemma OnTablesInv(s: State, step: TableStep)
    requires Inv(s)
    ensures Inv(s.(tables := TablesAfter(s.tables, s.foreign, step)))
  {
    hide TablesAfter, Inverse;
    TablesKeep(s.tables, s.foreign, step);
    forall id ensures Parted(TablesAfter(s.tables, s.foreign, step), s.paths, id) {
      TablesPart(s.tables, s.paths, s.foreign, step, id);
    }
  }

  lemma NextInv(s: State, step: Step)
    requires Inv(s)
    ensures Inv(Next(s, step))
  {
    hide Inverse, TablesAfter, PathsAfter, Without;
    match step
    case OnTables(table) => OnTablesInv(s, table);
    case OnPaths(path) => if path.TryP2P? ==> Known(s, path.id) { OnPathsInv(s, path); }
    case Removing(removal) => RemovedInv(s, removal);
    case Shutdown => RemovedInv(s, Clear);
    case _ =>
      forall id ensures Parted(Next(s, step).tables, Next(s, step).paths, id) && Placed(Next(s, step).paths, id) {
        assert Parted(s.tables, s.paths, id) && Placed(s.paths, id);
      }
  }

  lemma {:induction false} RunInvFrom(s: State, steps: seq<Step>)
    requires Inv(s)
    ensures Inv(Run(s, steps))
  {
    if steps != [] {
      RunInvFrom(s, steps[..|steps| - 1]);
      NextInv(Run(s, steps[..|steps| - 1]), steps[|steps| - 1]);
    }
  }

  lemma RunInv(steps: seq<Step>)
    ensures Inv(Run(EMPTY, steps))
  {
    hide Run, Next;
    assert Inv(EMPTY);
    RunInvFrom(EMPTY, steps);
  }

  // ---------- what every run promises ----------

  /** In every reachable state the address index and the id index are inverse to each other. */
  lemma {:induction false} IndexesAreInverse(steps: seq<Step>, addr: Addr, id: Id)
    ensures var t := Run(EMPTY, steps).tables;
            (addr in t.sessions && t.sessions[addr] == id) <==> (id in t.byID && t.byID[id] == addr)
  {
    RunInv(steps);
  }

  /** A removal by id takes that session, the idle removal those that were last seen before the cutoff, and a clearing
      all; for exactly those a close of the path becomes due. */
  predicate Goes(t: Tables, removal: Removal, id: Id) {
    && id in t.byID
    && match removal
       case Remove(x) => x == id
       case Reap(cutoff) => id in t.lastSeen && t.lastSeen[id] < cutoff
       case Clear => true
  }

  lemma LeavingIds(t: Tables, removal: Removal, id: Id)
    requires Inverse(t)
    ensures id in IdsAt(t, Leaving(t, removal)) <==> Goes(t, removal, id)
  {
    if Goes(t, removal, id) {
      assert t.byID[id] in t.sessions && t.sessions[t.byID[id]] == id;
      assert t.byID[id] in Leaving(t, removal);
    }
  }

  lemma {:induction false} RemovedExactly(steps: seq<Step>, removal: Removal, id: Id)
    ensures var s := Run(EMPTY, steps);
            var e := Next(s, Removing(removal));
            && (id in s.tables.byID ==> id in s.tables.lastSeen)
            && (id in e.tables.byID <==> id in s.tables.byID && !Goes(s.tables, removal, id))
            && (id in e.tables.byID ==> e.tables.byID[id] == s.tables.byID[id])
            && e.paths.closing[id] == s.paths.closing[id] + (if Goes(s.tables, removal, id) then 1 else 0)
            && e.paths.direct == s.paths.direct && e.tables.lastSeen == s.tables.lastSeen
  {
    hide Run, Leaving;
    RunInv(steps);
    LeavingIds(Run(EMPTY, steps).tables, removal, id);
  }

  /** Only a packet from its address or a lookup of its id moves the time at which a session was last seen, and both
      move it to the time of the call. */
  lemma {:induction false} SeenExactly(steps: seq<Step>, step: Step, id: Id)
    requires id in Run(EMPTY, steps).tables.byID
    ensures var t := Run(EMPTY, steps).tables;
            var e := Next(Run(EMPTY, steps), step).tables;
            && id in t.lastSeen && id in e.lastSeen
            && e.lastSeen[id] ==
               if step.OnTables? && step.table.Packet? && step.table.addr == t.byID[id] then step.table.now
               else if step.OnTables? && step.table.Find? && step.table.id == id then step.table.now
               else t.lastSeen[id]
  {
    hide Run;
    RunInv(steps);
    var t := Run(EMPTY, steps).tables;
    assert t.byID[id] in t.sessions && t.sessions[t.byID[id]] == id;
  }

  /** Opening a direct path and failing, at once or in the first round trip, leaves the books as they were; when it
      succeeds the session has the path and it is counted. */
  lemma {:induction false} PathIsReturned(steps: seq<Step>, id: Id)
    requires var s := Run(EMPTY, steps);
             s.linked && Known(s, id) && id !in s.paths.closed && id !in s.paths.direct && !Busy(s.paths, id)
    ensures var s := Run(EMPTY, steps);
            var p := Next(s, OnPaths(TryP2P(id)));
            && Next(p, OnPaths(OpenFailed(id))) == s
            && Next(Next(p, OnPaths(Opened(id))), OnPaths(TripFailed(id))) == s
            && Next(Next(p, OnPaths(Opened(id))), OnPaths(TripOk(id))) ==
               s.(paths := s.paths.(direct := s.paths.direct + {id}, charged := s.paths.charged + {id},
                                    p2pCount := s.paths.p2pCount + 1))
  {
    hide Run;
    RunInv(steps);
    var p := Run(EMPTY, steps).paths;
    assert Placed(p, id);
    PathBooks(p, id);
  }

  lemma PathBooks(p: Paths, id: Id)
    requires id !in p.closed && id !in p.direct && !Busy(p, id) && id !in p.charged
    ensures var q := PathsAfter(p, true, TryP2P(id));
            && PathsAfter(q, true, OpenFailed(id)) == p
            && PathsAfter(PathsAfter(q, true, Opened(id)), true, TripFailed(id)) == p
            && PathsAfter(PathsAfter(q, true, Opened(id)), true, TripOk(id)) ==
               p.(direct := p.direct + {id}, charged := p.charged + {id}, p2pCount := p.p2pCount + 1)
  {
    assert p.opening + {id} - {id} == p.opening;
    assert p.charged + {id} - {id} == p.charged;
    assert p.direct + {id} - {id} == p.direct;
    assert p.tripping + {id} - {id} == p.tripping;
  }

  /** While a session's path is being opened or used its close waits, and afterwards the close and the release take
      exactly that path and what it was charged. */
  lemma {:induction false} CloseWaitsForTheTrip(steps: seq<Step>, id: Id)
    ensures var s := Run(EMPTY, steps);
            var e := Next(s, OnPaths(CloseP2P(id)));
            && (Busy(s.paths, id) ==> e == s)
            && (!Busy(s.paths, id) && id in s.paths.closing ==>
                  && e.paths.closed == s.paths.closed + {id} && e.paths.direct == s.paths.direct - {id}
                  && Next(e, OnPaths(Release)).paths.p2pCount ==
                     s.paths.p2pCount - (if id in s.paths.charged || s.paths.releasing > 0 then 1 else 0))
  {
    hide Run;
    RunInv(steps);
  }

  /** `p2pCount` is the number of direct paths charged here, installed or being opened, and of those being closed;
      so wherever a release is due the count is positive and its zero guard hides nothing. */
  lemma {:induction false} DirectPathsAreCounted(steps: seq<Step>)
    ensures var p := Run(EMPTY, steps).paths;
            && p.p2pCount == |p.charged| + p.releasing && p.charged <= p.opening + p.direct
            && (p.charged != {} || p.releasing > 0 ==> p.p2pCount > 0)
  {
    RunInv(steps);
    var p := Run(EMPTY, steps).paths;
    forall id | id in p.charged ensures id in p.opening + p.direct {
      assert Placed(p, id);
    }
  }

  /** A closed session never holds a direct path, nor is one being opened for it. */
  lemma {:induction false} ClosedHoldsNoPath(steps: seq<Step>, id: Id)
    requires id in Run(EMPTY, steps).paths.closed
    ensures var p := Run(EMPTY, steps).paths; id !in p.direct && id !in p.opening && id !in p.tripping
  {
    RunInv(steps);
    assert Placed(Run(EMPTY, steps).paths, id);
  }

  /** At rest, every direct path belongs to a session that is still in the tables or to a foreign one, the count is
      the number of paths charged here, and the runtime's share of the active counter is the size of its table. */
  lemma {:induction false} AtRestNothingLeaks(steps: seq<Step>)
    requires var s := Run(EMPTY, steps);
             s.paths.closing == multiset{} && s.paths.opening == {} && s.paths.releasing == 0 && s.tables.uncounted == 0
    ensures var s := Run(EMPTY, steps);
            && s.paths.direct <= s.tables.byID.Keys + s.foreign
            && s.paths.charged <= s.paths.direct && s.paths.p2pCount == |s.paths.charged|
            && s.tables.active == |s.tables.sessions| <= MAX_SESSIONS
  {
    RunInv(steps);
    var s := Run(EMPTY, steps);
    forall id | id in s.paths.direct ensures id in s.tables.byID.Keys + s.foreign {
      assert Parted(s.tables, s.paths, id) && Placed(s.paths, id);
    }
    forall id | id in s.paths.charged ensures id in s.paths.direct {
      assert Placed(s.paths, id);
    }
  }

  /** A runtime that the manager always found counts the paths of all sessions. */
  ghost predicate Charges(p: Paths, id: Id) {
    id in p.charged <==> id in p.opening || id in p.direct
  }

  lemma PathStepCharges(p: Paths, step: PathStep, id: Id)
    requires Placed(p, id) && Charges(p, id)
    ensures Charges(PathsAfter(p, true, step), id)
  {
  }

  lemma {:induction false} LinkedChargesAll(steps: seq<Step>, id: Id)
    requires forall step <- steps :: !step.Unlink?
    ensures Run(EMPTY, steps).linked && Charges(Run(EMPTY, steps).paths, id)
  {
    hide PathsAfter, TablesAfter, Without;
    if steps != [] {
      var front, last := steps[..|steps| - 1], steps[|steps| - 1];
      RunInv(front);
      LinkedChargesAll(front, id);
      if last.OnPaths? {
        assert Placed(Run(EMPTY, front).paths, id);
        PathStepCharges(Run(EMPTY, front).paths, last.path, id);
      }
    }
  }

  lemma {:induction false} LinkedCountsAll(steps: seq<Step>)
    requires forall step <- steps :: !step.Unlink?
    ensures var p := Run(EMPTY, steps).paths; p.p2pCount == |p.opening| + |p.direct| + p.releasing
  {
    RunInv(steps);
    var p := Run(EMPTY, steps).paths;
    forall id ensures Charges(p, id) {
      LinkedChargesAll(steps, id);
    }
    ChargedSize(p);
  }

  lemma ChargedSize(p: Paths)
    requires forall id :: Charges(p, id)
    requires forall id :: Placed(p, id)
    ensures |p.charged| == |p.opening| + |p.direct|
  {
    forall id ensures id in p.charged <==> id in p.opening + p.direct {
      assert Charges(p, id);
    }
    forall id | id in p.opening ensures id !in p.direct {
      assert Placed(p, id);
    }
    assert p.charged == p.opening + p.direct && p.opening !! p.direct;
  }

  // ---------- after the shutdown ----------

  predicate MakesSession(s: State, step: Step) {
    step.OnTables? && Creates(s.tables, s.foreign, step.table)
  }

  /** How many of the packets in a run make a session. */
  function Created(s: State, steps: seq<Step>): nat {
    if steps == [] then 0
    else
      var front := steps[..|steps| - 1];
      Created(s, front) + if MakesSession(Run(s, front), steps[|steps| - 1]) then 1 else 0
  }

  lemma TableSize(s: State, step: Step)
    requires Inv(s)
    ensures var n, k := |s.tables.sessions|, |Next(s, step).tables.sessions|;
            && k <= n + (if MakesSession(s, step) then 1 else 0)
            && (!step.Removing? && !step.Shutdown? ==> k == n + if MakesSession(s, step) then 1 else 0)
  {
    hide TablesAfter, Without;
    match step
    case OnTables(table) => TablesKeep(s.tables, s.foreign, table);
    case Removing(removal) => WithoutShared(s.tables, removal);
    case Shutdown => WithoutShared(s.tables, Clear);
    case _ =>
  }

  lemma {:induction false} TableOfCreated(s: State, steps: seq<Step>)
    requires Inv(s) && s.tables.sessions == map[]
    ensures |Run(s, steps).tables.sessions| <= Created(s, steps)
    ensures (forall step <- steps :: !step.Removing? && !step.Shutdown?) ==>
              |Run(s, steps).tables.sessions| == Created(s, steps)
  {
    hide Next;
    if steps != [] {
      TableOfCreated(s, steps[..|steps| - 1]);
      RunInvFrom(s, steps[..|steps| - 1]);
      TableSize(Run(s, steps[..|steps| - 1]), steps[|steps| - 1]);
    }
  }

  lemma ShutdownEmpties(s: State)
    requires Inv(s) && !s.linked && !s.shut
    ensures Inv(Next(s, Shutdown)) && Next(s, Shutdown).tables.sessions == map[]
  {
    NextInv(s, Shutdown);
  }

  lemma SharedAtRest(s: State)
    requires Inv(s)
    ensures s.tables.active == |s.tables.sessions| + s.tables.uncounted
  {
  }

  /** Once its decrements are done, the share of a runtime that was shut down is the number of sessions that late
      packets made and that nothing removed; when nobody visits its table any more, it returns to zero exactly when
      no late packet made a session. */
  lemma {:induction false} ShareAfterShutdown(before: seq<Step>, more: seq<Step>)
    requires var s := Run(EMPTY, before); !s.linked && !s.shut
    requires Run(Next(Run(EMPTY, before), Shutdown), more).tables.uncounted == 0
    ensures var s := Next(Run(EMPTY, before), Shutdown);
            var t := Run(s, more).tables;
            && t.active == |t.sessions| <= Created(s, more)
            && ((forall step <- more :: !step.Removing? && !step.Shutdown?) ==> (t.active == 0 <==> Created(s, more) == 0))
  {
    hide Run, Next, Created, Inv;
    RunInv(before);
    var s := Next(Run(EMPTY, before), Shutdown);
    ShutdownEmpties(Run(EMPTY, before));
    TableOfCreated(s, more);
    RunInvFrom(s, more);
    SharedAtRest(Run(s, more));
  }

  /** A worker that takes one more packet after the shutdown leaves a session in the dead table. */
  lemma LatePacketLeaks(addr: Addr, id: Id, now: Time)
    ensures var s := Next(Next(EMPTY, Unlink), Shutdown);
            var e := Next(s, OnTables(Packet(addr, id, now)));
            s.shut && s.tables.active == 0 && e.tables.active == 1 && e.tables.uncounted == 0
  {
  }

  /** A path opened by a session whose runtime was unlinked is not counted there; one opened by a foreign session
      while this runtime is linked is counted here. */
  lemma CountedWhereFound(id: Id, addr: Addr, now: Time)
    ensures var s := Next(Next(EMPTY, OnTables(Packet(addr, id, now))), Unlink);
            var e := Next(Next(s, OnPaths(TryP2P(id))), OnPaths(Opened(id)));
            id in e.paths.direct && id in e.tables.byID && e.paths.p2pCount == 0
    ensures var e := Next(Next(Next(EMPTY, Appear(id)), OnPaths(TryP2P(id))), OnPaths(Opened(id)));
            id in e.paths.direct && id !in e.tables.byID && e.paths.p2pCount == 1
  {
  }
}
