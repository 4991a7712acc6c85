/** The table of registered peers of the rendezvous server (internal/advanced/rendezvous_server.go). */
module RendezvousTable {
  import opened Options

  type Addr = nat
  type Time = int

  datatype Key = Key(session: string, peer: string)

  /** A registration as it arrives. */
  datatype Packet = Packet(session: string, peer: string, wants: string)

  /** `id` numbers the registrations in the order of arrival; the server does not have it. */
  datatype Peer = Peer(wants: string, addr: Addr, seen: Time, id: nat)

  type Table = map<Key, Peer>

  datatype Datagram = Observed(to: Addr, endpoint: Addr) | PeerAt(to: Addr, peer: string, endpoint: Addr)

  predicate Complete(p: Packet) {
    p.session != "" && p.peer != "" && p.wants != ""
  }

  function KeyOf(p: Packet): Key {
    Key(p.session, p.peer)
  }

  function Wanted(p: Packet): Key {
    Key(p.session, p.wants)
  }

  predicate Expired(peer: Peer, ttl: Time, now: Time) {
    now - peer.seen > ttl
  }

  function Live(peers: Table, ttl: Time, now: Time): Table {
    map k | k in peers && !Expired(peers[k], ttl, now) :: peers[k]
  }

  /** What pruning leaves: everything that has not expired when that fits, else all but the oldest; equally old
      peers go in any order. */
  ghost predicate Pruned(peers: Table, ttl: Time, max: nat, now: Time, kept: Table) {
    Newest(Live(peers, ttl, now), max, kept)
  }

  ghost predicate Newest(live: Table, max: nat, kept: Table) {
    && (forall k <- kept.Keys :: k in live && kept[k] == live[k])
    && |kept| < max
    && (|live| < max ==> kept == live)
    && (|live| >= max ==> |kept| == max - 1)
    && (forall k, j :: k in live && k !in kept && j in kept ==> live[k].seen <= kept[j].seen)
  }

  /** The stored peer that the packet wants, when it wants the packet's peer. */
  function Find(peers: Table, p: Packet): Option<Peer> {
    if Wanted(p) in peers && peers[Wanted(p)].wants == p.peer then Some(peers[Wanted(p)]) else None
  }

  /** The table after a complete registration, given what pruning left. */
  function Stored(kept: Table, p: Packet, addr: Addr, now: Time, id: nat): Table {
    kept[KeyOf(p) := Peer(p.wants, addr, now, id)]
  }

  function Settled(stored: Table, p: Packet): Table {
    if Find(stored, p).Some? then stored - {KeyOf(p), Wanted(p)} else stored
  }

  function Replies(stored: Table, p: Packet, addr: Addr): seq<Datagram> {
    var other := Find(stored, p);
    if other.Some? then [PeerAt(addr, p.wants, other.value.addr), PeerAt(other.value.addr, p.peer, addr)] else []
  }

  class RendezvousServer {
    var peers: Table
    var registrations: nat
    const ttl: Time
    const max: nat

    constructor (ttl: Time, max: nat)
      ensures peers == map[] && registrations == 0 && this.ttl == ttl && this.max == max
    {
      peers, registrations, this.ttl, this.max := map[], 0, ttl, max;
    }

    method PruneLocked(now: Time)
      requires max > 0
      modifies this`peers
      ensures Pruned(old(peers), ttl, max, now, peers)
      ensures forall k <- peers.Keys :: k in old(peers) && peers[k] == old(peers)[k] && now - peers[k].seen <= ttl
      ensures |set k | k in old(peers) && now - old(peers)[k].seen <= ttl| < max ==>
                forall k <- old(peers).Keys :: now - old(peers)[k].seen <= ttl ==> k in peers
      ensures |set k | k in old(peers) && now - old(peers)[k].seen <= ttl| >= max ==> |peers| == max - 1
      ensures forall k, j :: k in old(peers) && now - old(peers)[k].seen <= ttl && k !in peers && j in peers ==>
                old(peers)[k].seen <= peers[j].seen
    {
      var keys := peers.Keys;
      while keys != {}
        invariant forall k :: k in peers <==> k in old(peers) && (k in keys || !Expired(old(peers)[k], ttl, now))
        invariant forall k :: k in peers ==> peers[k] == old(peers)[k]
        invariant keys <= old(peers).Keys
        decreases keys
      {
        var key :| key in keys;
        keys := keys - {key};
        if Expired(peers[key], ttl, now) {
          peers := peers - {key};
        }
      }
      ghost var live := peers;
      assert live == Live(old(peers), ttl, now);
      assert live.Keys == set k | k in old(peers) && now - old(peers)[k].seen <= ttl;
      assert |live.Keys| == |live|;
      while |peers| >= max
        invariant forall k :: k in peers ==> k in live && peers[k] == live[k]
        invariant if |live| < max then peers == live else |peers| >= max - 1
        invariant forall k, j :: k in live && k !in peers && j in peers ==> live[k].seen <= peers[j].seen
        decreases |peers|
      {
        var oldest := Oldest();
        Smaller(peers, oldest);
        peers := peers - {oldest};
      }
    }

    method Oldest() returns (oldest: Key)
      requires peers != map[]
      ensures oldest in peers && forall k :: k in peers ==> peers[oldest].seen <= peers[k].seen
    {
      var keys := peers.Keys;
      oldest :| oldest in keys;
      keys := keys - {oldest};
      while keys != {}
        invariant keys <= peers.Keys && oldest in peers
        invariant forall k :: k in peers && k !in keys ==> peers[oldest].seen <= peers[k].seen
        decreases keys
      {
        var key :| key in keys;
        keys := keys - {key};
        if peers[key].seen < peers[oldest].seen {
          oldest := key;
        }
      }
    }

    /** `kept` is what pruning left. */
    method Register(packet: Packet, addr: Addr, now: Time) returns (sent: seq<Datagram>, ghost kept: Table)
      requires max > 0
      modifies this
      ensures !Complete(packet) ==> sent == [] && peers == old(peers) && registrations == old(registrations)
      ensures Complete(packet) ==> Pruned(old(peers), ttl, max, now, kept)
      ensures Complete(packet) ==>
        var stored := Stored(kept, packet, addr, now, old(registrations));
        && peers == Settled(stored, packet)
        && sent == [Observed(addr, addr)] + Replies(stored, packet, addr)
        && registrations == old(registrations) + 1
      ensures Complete(packet) ==>
        var key, wanted := Key(packet.session, packet.peer), Key(packet.session, packet.wants);
        if packet.wants == packet.peer then
          && sent == [Observed(addr, addr), PeerAt(addr, packet.peer, addr), PeerAt(addr, packet.peer, addr)]
          && peers == kept - {key}
        else if wanted in kept && kept[wanted].wants == packet.peer then
          && sent == [Observed(addr, addr), PeerAt(addr, packet.wants, kept[wanted].addr),
                      PeerAt(kept[wanted].addr, packet.peer, addr)]
          && peers == kept - {key, wanted}
        else
          && sent == [Observed(addr, addr)]
          && peers == kept[key := Peer(packet.wants, addr, now, old(registrations))]
    {
      hide Pruned;
      sent, kept := [], map[];
      if packet.session == "" || packet.peer == "" || packet.wants == "" {
        return;
      }
      sent := [Observed(addr, addr)];
      PruneLocked(now);
      kept := peers;
      var key := KeyOf(packet);
      peers := peers[key := Peer(packet.wants, addr, now, registrations)];
      registrations := registrations + 1;
      RegisteredMeans(kept, packet, addr, now, old(registrations));
      var other := Find(peers, packet);
      if other.Some? {
        peers := peers - {key, Wanted(packet)};
        sent := sent + [PeerAt(addr, packet.wants, other.value.addr), PeerAt(other.value.addr, packet.peer, addr)];
      }
    }
  }

  /** What a registration does, read off the pruned table. */
  lemma RegisteredMeans(kept: Table, p: Packet, addr: Addr, now: Time, id: nat)
    ensures var stored := Stored(kept, p, addr, now, id);
      var key, wanted, after := Key(p.session, p.peer), Key(p.session, p.wants), Settled(stored, p);
      if p.wants == p.peer then
        Replies(stored, p, addr) == [PeerAt(addr, p.peer, addr), PeerAt(addr, p.peer, addr)] && after == kept - {key}
      else if wanted in kept && kept[wanted].wants == p.peer then
        && Replies(stored, p, addr) == [PeerAt(addr, p.wants, kept[wanted].addr), PeerAt(kept[wanted].addr, p.peer, addr)]
        && after == kept - {key, wanted}
      else Replies(stored, p, addr) == [] && after == kept[key := Peer(p.wants, addr, now, id)]
  {
  }

  lemma Smaller(peers: Table, key: Key)
    requires key in peers
    ensures |peers - {key}| == |peers| - 1
  {
    assert (peers - {key}).Keys == peers.Keys - {key};
    assert |(peers - {key}).Keys| == |peers - {key}|;
    assert |peers.Keys| == |peers|;
  }

  lemma {:induction false} OldestOf(live: Table) returns (oldest: Key)
    requires live != map[]
    ensures oldest in live && forall k :: k in live ==> live[oldest].seen <= live[k].seen
    decreases |live|
  {
    var key :| key in live;
    oldest := key;
    Smaller(live, key);
    if live - {key} != map[] {
      var other := OldestOf(live - {key});
      if live[other].seen < live[key].seen {
        oldest := other;
      }
      assert forall k :: k in live ==> k == key || k in live - {key};
    } else {
      assert forall k :: k in live && k != key ==> k in live - {key};
    }
  }

  lemma {:induction false} NewestOf(live: Table, max: nat) returns (kept: Table)
    requires max > 0
    ensures Newest(live, max, kept)
    decreases |live|
  {
    kept := live;
    if |live| >= max {
      var oldest := OldestOf(live);
      Smaller(live, oldest);
      kept := NewestOf(live - {oldest}, max);
    }
  }

  /** Pruning has an outcome exactly when the bound is positive; with the bound 0 the eviction loop would never end. */
  lemma PruningEnds(peers: Table, ttl: Time, max: nat, now: Time)
    ensures (exists kept :: Pruned(peers, ttl, max, now, kept)) <==> max > 0
  {
    if max > 0 {
      var kept := NewestOf(Live(peers, ttl, now), max);
      assert Pruned(peers, ttl, max, now, kept);
    }
  }

  // ---------- runs ----------

  /** A registration in the log: the packet, its address and the time of arrival. */
  datatype Entry = Entry(packet: Packet, addr: Addr, at: Time)

  /** The stored registration and the arriving one that were told of each other. */
  datatype Exchange = Exchange(stored: nat, arriving: nat)

  /** `sent` has the datagrams of each registration in the log. */
  datatype State = State(
    peers: Table, log: seq<Entry>, exchanges: seq<Exchange>, sent: seq<seq<Datagram>>, clock: Time)

  /** `kept` chooses among equally old peers. */
  datatype Step = Register(packet: Packet, addr: Addr, elapsed: nat, kept: Table)

  predicate Initial(s: State) {
    s.peers == map[] && s.log == [] && s.exchanges == [] && s.sent == []
  }

  function Exchanged(exchanges: seq<Exchange>, other: Option<Peer>, id: nat): seq<Exchange> {
    if other.Some? then exchanges + [Exchange(other.value.id, id)] else exchanges
  }

  ghost function Next(s: State, ttl: Time, max: nat, step: Step): State {
    var now := s.clock + step.elapsed;
    if !Complete(step.packet) || !Pruned(s.peers, ttl, max, now, step.kept) then s.(clock := now)
    else
      var stored := Stored(step.kept, step.packet, step.addr, now, |s.log|);
      State(Settled(stored, step.packet), s.log + [Entry(step.packet, step.addr, now)],
            Exchanged(s.exchanges, Find(stored, step.packet), |s.log|),
            s.sent + [[Observed(step.addr, step.addr)] + Replies(stored, step.packet, step.addr)], now)
  }

  ghost function Run(s: State, ttl: Time, max: nat, steps: seq<Step>): State
    decreases |steps|
  {
    if steps == [] then s else Next(Run(s, ttl, max, steps[..|steps| - 1]), ttl, max, steps[|steps| - 1])
  }

  // ---------- no two reciprocal registrations ----------

  predicate Reciprocal(peers: Table, a: Key, b: Key)
    requires a in peers && b in peers
  {
    a.session == b.session && peers[a].wants == b.peer && peers[b].wants == a.peer
  }

  ghost predicate NoPairs(peers: Table) {
    forall a, b :: a in peers && b in peers ==> !Reciprocal(peers, a, b)
  }

  /** A match is made exactly when one is there; afterwards none is. */
  lemma SettledHasNoPairs(kept: Table, p: Packet, addr: Addr, now: Time, id: nat)
    requires NoPairs(kept) && Complete(p)
    ensures NoPairs(Settled(Stored(kept, p, addr, now, id), p))
    ensures Find(Stored(kept, p, addr, now, id), p).Some? <==> !NoPairs(Stored(kept, p, addr, now, id))
  {
    var stored := Stored(kept, p, addr, now, id);
    var after := Settled(stored, p);
    if Find(stored, p).Some? {
      assert Reciprocal(stored, KeyOf(p), Wanted(p));
    }
    forall a, b | a in stored && b in stored && Reciprocal(stored, a, b)
      ensures Find(stored, p).Some? && (a == KeyOf(p) || b == KeyOf(p))
    {
      if a != KeyOf(p) && b != KeyOf(p) {
        assert Reciprocal(kept, a, b);
      }
    }
    forall a, b | a in after && b in after ensures !Reciprocal(after, a, b) {
      assert Reciprocal(after, a, b) == Reciprocal(stored, a, b);
    }
  }

  lemma PrunedHasNoPairs(peers: Table, ttl: Time, max: nat, now: Time, kept: Table)
    requires NoPairs(peers) && Pruned(peers, ttl, max, now, kept)
    ensures NoPairs(kept)
  {
    forall a, b | a in kept && b in kept ensures !Reciprocal(kept, a, b) {
      assert !Reciprocal(peers, a, b);
    }
  }

  // ---------- the log ----------

  /** A stored peer is a logged registration. */
  predicate Logged(log: seq<Entry>, k: Key, peer: Peer) {
    && peer.id < |log|
    && log[peer.id] == Entry(Packet(k.session, k.peer, peer.wants), peer.addr, peer.seen)
    && Complete(log[peer.id].packet)
  }

  ghost predicate AllLogged(log: seq<Entry>, peers: Table) {
    forall k <- peers.Keys :: Logged(log, k, peers[k])
  }

  /** The two registrations are in one session, want each other and came at most `ttl` apart. */
  predicate Mutual(log: seq<Entry>, ttl: Time, e: Exchange) {
    && e.stored <= e.arriving < |log|
    && log[e.stored].packet.session == log[e.arriving].packet.session
    && log[e.stored].packet.wants == log[e.arriving].packet.peer
    && log[e.arriving].packet.wants == log[e.stored].packet.peer
    && (e.stored < e.arriving ==> log[e.arriving].at - log[e.stored].at <= ttl)
  }

  predicate Uses(e: Exchange, id: nat) {
    e.stored == id || e.arriving == id
  }

  predicate Unused(exchanges: seq<Exchange>, id: nat) {
    forall e <- exchanges :: !Uses(e, id)
  }

  ghost predicate AllMutual(log: seq<Entry>, ttl: Time, exchanges: seq<Exchange>) {
    forall e <- exchanges :: Mutual(log, ttl, e)
  }

  ghost predicate UsedOnce(exchanges: seq<Exchange>) {
    forall i, j, id :: 0 <= i < j < |exchanges| && Uses(exchanges[i], id) ==> !Uses(exchanges[j], id)
  }

  ghost predicate StoredUnused(exchanges: seq<Exchange>, peers: Table) {
    forall k <- peers.Keys :: Unused(exchanges, peers[k].id)
  }

  /** At the later of two registrations that met, each side is sent the other one's logged address. */
  predicate Told(log: seq<Entry>, sent: seq<seq<Datagram>>, e: Exchange) {
    && e.stored < |log| && e.arriving < |log| && e.arriving < |sent|
    && var mine, theirs := log[e.arriving], log[e.stored];
       sent[e.arriving] == [Observed(mine.addr, mine.addr),
                            PeerAt(mine.addr, theirs.packet.peer, theirs.addr),
                            PeerAt(theirs.addr, mine.packet.peer, mine.addr)]
  }

  /** A registration that met nobody is only told its own address. */
  predicate Alone(log: seq<Entry>, exchanges: seq<Exchange>, sent: seq<seq<Datagram>>, id: nat)
    requires id < |log| && id < |sent|
  {
    (forall e <- exchanges :: e.arriving != id) ==> sent[id] == [Observed(log[id].addr, log[id].addr)]
  }

  ghost predicate AllTold(log: seq<Entry>, exchanges: seq<Exchange>, sent: seq<seq<Datagram>>) {
    && |sent| == |log|
    && (forall e <- exchanges :: Told(log, sent, e))
    && forall id :: 0 <= id < |log| ==> Alone(log, exchanges, sent, id)
  }

  ghost predicate Inv(s: State, ttl: Time, max: nat) {
    && AllTold(s.log, s.exchanges, s.sent)
    && NoPairs(s.peers) && |s.peers| <= max && AllLogged(s.log, s.peers)
    && AllMutual(s.log, ttl, s.exchanges) && UsedOnce(s.exchanges) && StoredUnused(s.exchanges, s.peers)
  }

  lemma StoredSize(kept: Table, p: Packet, addr: Addr, now: Time, id: nat)
    ensures |Stored(kept, p, addr, now, id)| <= |kept| + 1
  {
    var stored := Stored(kept, p, addr, now, id);
    assert stored.Keys == kept.Keys + {KeyOf(p)};
    assert |stored.Keys| == |stored| && |kept.Keys| == |kept|;
  }

  lemma SettledSize(stored: Table, p: Packet)
    ensures |Settled(stored, p)| <= |stored|
  {
    if Find(stored, p).Some? {
      var gone := {KeyOf(p), Wanted(p)};
      assert (stored - gone).Keys == stored.Keys - gone;
      assert |(stored - gone).Keys| == |stored - gone| && |stored.Keys| == |stored|;
    }
  }

  lemma RegisteredSize(peers: Table, ttl: Time, max: nat, now: Time, kept: Table, p: Packet, addr: Addr, id: nat)
    requires Pruned(peers, ttl, max, now, kept)
    ensures |Settled(Stored(kept, p, addr, now, id), p)| <= max
  {
    hide Stored, Settled;
    StoredSize(kept, p, addr, now, id);
    SettledSize(Stored(kept, p, addr, now, id), p);
  }

  lemma StoredIsLogged(log: seq<Entry>, peers: Table, ttl: Time, max: nat, now: Time, kept: Table, p: Packet, addr: Addr)
    requires AllLogged(log, peers) && Pruned(peers, ttl, max, now, kept) && Complete(p)
    ensures AllLogged(log + [Entry(p, addr, now)], Stored(kept, p, addr, now, |log|))
  {
    var stored := Stored(kept, p, addr, now, |log|);
    forall k | k in stored ensures Logged(log + [Entry(p, addr, now)], k, stored[k]) {
      if k != KeyOf(p) {
        assert Logged(log, k, peers[k]);
      }
    }
  }

  /** Two stored peers are different registrations. */
  lemma DifferentIds(log: seq<Entry>, peers: Table, a: Key, b: Key)
    requires AllLogged(log, peers) && a in peers && b in peers && peers[a].id == peers[b].id
    ensures a == b
  {
    assert Logged(log, a, peers[a]) && Logged(log, b, peers[b]);
  }

  lemma MatchIsMutual(log: seq<Entry>, peers: Table, ttl: Time, max: nat, now: Time, kept: Table, p: Packet, addr: Addr)
    requires AllLogged(log, peers) && Pruned(peers, ttl, max, now, kept) && Complete(p)
    ensures var other := Find(Stored(kept, p, addr, now, |log|), p);
      other.Some? ==> Mutual(log + [Entry(p, addr, now)], ttl, Exchange(other.value.id, |log|))
  {
    if Wanted(p) != KeyOf(p) && Wanted(p) in kept {
      assert Logged(log, Wanted(p), peers[Wanted(p)]);
    }
  }

  lemma ExchangedIsMutual(log: seq<Entry>, entry: Entry, ttl: Time, exchanges: seq<Exchange>, other: Option<Peer>)
    requires AllMutual(log, ttl, exchanges)
    requires other.Some? ==> Mutual(log + [entry], ttl, Exchange(other.value.id, |log|))
    ensures AllMutual(log + [entry], ttl, Exchanged(exchanges, other, |log|))
  {
    forall e | e in Exchanged(exchanges, other, |log|) ensures Mutual(log + [entry], ttl, e) {
      assert e in exchanges ==> Mutual(log, ttl, e);
    }
  }

  /** An exchange never names a registration that is still to come. */
  lemma NextIdIsUnused(log: seq<Entry>, ttl: Time, exchanges: seq<Exchange>)
    requires AllMutual(log, ttl, exchanges)
    ensures Unused(exchanges, |log|)
  {
    forall e | e in exchanges ensures !Uses(e, |log|) {
      assert Mutual(log, ttl, e);
    }
  }

  lemma ExchangedIsUsedOnce(exchanges: seq<Exchange>, other: Option<Peer>, id: nat)
    requires UsedOnce(exchanges) && Unused(exchanges, id) && (other.Some? ==> Unused(exchanges, other.value.id))
    ensures UsedOnce(Exchanged(exchanges, other, id))
  {
  }

  lemma KeptIsUnused(exchanges: seq<Exchange>, peers: Table, ttl: Time, max: nat, now: Time, kept: Table,
                     p: Packet, addr: Addr, id: nat)
    requires StoredUnused(exchanges, peers) && Pruned(peers, ttl, max, now, kept) && Unused(exchanges, id)
    ensures StoredUnused(exchanges, Stored(kept, p, addr, now, id))
  {
    var stored := Stored(kept, p, addr, now, id);
    forall k | k in stored ensures Unused(exchanges, stored[k].id) {
      if k != KeyOf(p) {
        assert Unused(exchanges, peers[k].id);
      }
    }
  }

  lemma SettledIsUnused(log: seq<Entry>, exchanges: seq<Exchange>, stored: Table, p: Packet)
    requires AllLogged(log, stored) && StoredUnused(exchanges, stored) && KeyOf(p) in stored
    ensures StoredUnused(Exchanged(exchanges, Find(stored, p), stored[KeyOf(p)].id), Settled(stored, p))
  {
    var other, settled := Find(stored, p), Settled(stored, p);
    forall k | k in settled ensures Unused(Exchanged(exchanges, other, stored[KeyOf(p)].id), settled[k].id) {
      assert Unused(exchanges, stored[k].id);
      if other.Some? {
        if stored[k].id == stored[KeyOf(p)].id {
          DifferentIds(log, stored, k, KeyOf(p));
        } else if stored[k].id == stored[Wanted(p)].id {
          DifferentIds(log, stored, k, Wanted(p));
        }
      }
    }
  }

  lemma SettledIsLogged(log: seq<Entry>, stored: Table, p: Packet)
    requires AllLogged(log, stored)
    ensures AllLogged(log, Settled(stored, p))
  {
    forall k | k in Settled(stored, p) ensures Logged(log, k, Settled(stored, p)[k]) {
      assert Logged(log, k, stored[k]);
    }
  }

  lemma MatchIsTold(log: seq<Entry>, peers: Table, ttl: Time, max: nat, now: Time, kept: Table, p: Packet, addr: Addr,
                    sent: seq<seq<Datagram>>)
    requires AllLogged(log, peers) && Pruned(peers, ttl, max, now, kept) && Complete(p) && |sent| == |log|
    ensures var stored := Stored(kept, p, addr, now, |log|);
            var other := Find(stored, p);
            other.Some? ==>
              Told(log + [Entry(p, addr, now)], sent + [[Observed(addr, addr)] + Replies(stored, p, addr)],
                   Exchange(other.value.id, |log|))
  {
    if Wanted(p) != KeyOf(p) && Wanted(p) in kept {
      assert Logged(log, Wanted(p), peers[Wanted(p)]);
    }
  }

  lemma ExchangedIsTold(log: seq<Entry>, entry: Entry, exchanges: seq<Exchange>, sent: seq<seq<Datagram>>,
                        more: seq<Datagram>, other: Option<Peer>)
    requires AllTold(log, exchanges, sent)
    requires other.Some? ==> Told(log + [entry], sent + [more], Exchange(other.value.id, |log|))
    requires other.None? ==> more == [Observed(entry.addr, entry.addr)]
    ensures AllTold(log + [entry], Exchanged(exchanges, other, |log|), sent + [more])
  {
    var met := Exchanged(exchanges, other, |log|);
    forall e | e in met ensures Told(log + [entry], sent + [more], e) {
      assert e in exchanges ==> Told(log, sent, e);
    }
    forall id | 0 <= id <= |log| ensures Alone(log + [entry], met, sent + [more], id) {
      if id < |log| {
        assert Alone(log, exchanges, sent, id);
        assert forall e <- exchanges :: e in met;
        if other.Some? {
          assert met[|exchanges|] == Exchange(other.value.id, |log|);
        }
      } else if other.Some? {
        assert met[|exchanges|].arriving == |log|;
      }
    }
  }

  lemma NextInv(s: State, ttl: Time, max: nat, step: Step)
    requires Inv(s, ttl, max)
    ensures Inv(Next(s, ttl, max, step), ttl, max)
  {
    hide Pruned, NoPairs, AllLogged, AllMutual, UsedOnce, StoredUnused, Unused, AllTold, Told;
    var p, now, kept := step.packet, s.clock + step.elapsed, step.kept;
    if Complete(p) && Pruned(s.peers, ttl, max, now, kept) {
      var id := |s.log|;
      var entry, stored := Entry(p, step.addr, now), Stored(kept, p, step.addr, now, id);
      PrunedHasNoPairs(s.peers, ttl, max, now, kept);
      SettledHasNoPairs(kept, p, step.addr, now, id);
      RegisteredSize(s.peers, ttl, max, now, kept, p, step.addr, id);
      StoredIsLogged(s.log, s.peers, ttl, max, now, kept, p, step.addr);
      SettledIsLogged(s.log + [entry], stored, p);
      MatchIsMutual(s.log, s.peers, ttl, max, now, kept, p, step.addr);
      ExchangedIsMutual(s.log, entry, ttl, s.exchanges, Find(stored, p));
      SentPerEntry(s);
      MatchIsTold(s.log, s.peers, ttl, max, now, kept, p, step.addr, s.sent);
      ExchangedIsTold(s.log, entry, s.exchanges, s.sent, [Observed(step.addr, step.addr)] + Replies(stored, p, step.addr),
                      Find(stored, p));
      NextIdIsUnused(s.log, ttl, s.exchanges);
      KeptIsUnused(s.exchanges, s.peers, ttl, max, now, kept, p, step.addr, id);
      FoundIsUnused(s.exchanges, stored, p);
      ExchangedIsUsedOnce(s.exchanges, Find(stored, p), id);
      SettledIsUnused(s.log + [entry], s.exchanges, stored, p);
    }
  }

  lemma SentPerEntry(s: State)
    requires AllTold(s.log, s.exchanges, s.sent)
    ensures |s.sent| == |s.log|
  {
  }

  lemma FoundIsUnused(exchanges: seq<Exchange>, stored: Table, p: Packet)
    requires StoredUnused(exchanges, stored)
    ensures Find(stored, p).Some? ==> Unused(exchanges, Find(stored, p).value.id)
  {
  }

  lemma {:induction false} RunInv(s: State, ttl: Time, max: nat, steps: seq<Step>)
    requires Initial(s)
    ensures Inv(Run(s, ttl, max, steps), ttl, max)
  {
    if steps != [] {
      RunInv(s, ttl, max, steps[..|steps| - 1]);
      NextInv(Run(s, ttl, max, steps[..|steps| - 1]), ttl, max, steps[|steps| - 1]);
    }
  }

  /** A registration takes part in at most one exchange, with a registration of the same session that wants it
      back and came no longer than `ttl` before; then it is not stored any more. */
  lemma {:induction false} ExchangesAreMutual(s: State, ttl: Time, max: nat, steps: seq<Step>, i: nat, j: nat, id: nat)
    requires Initial(s) && i < |Run(s, ttl, max, steps).exchanges| && j < |Run(s, ttl, max, steps).exchanges|
    ensures var e := Run(s, ttl, max, steps);
      && Mutual(e.log, ttl, e.exchanges[i])
      && (Uses(e.exchanges[i], id) && Uses(e.exchanges[j], id) ==> i == j)
      && forall k <- e.peers.Keys :: !Uses(e.exchanges[i], e.peers[k].id)
  {
    RunInv(s, ttl, max, steps);
    var e := Run(s, ttl, max, steps);
    forall k | k in e.peers ensures !Uses(e.exchanges[i], e.peers[k].id) {
      assert Unused(e.exchanges, e.peers[k].id);
    }
  }

  /** In every exchange each side was sent the other one's address under the other one's name; a registration that met
      nobody was sent its own address only. */
  lemma {:induction false} ExchangesAreTold(s: State, ttl: Time, max: nat, steps: seq<Step>, i: nat, id: nat)
    requires Initial(s)
    ensures var e := Run(s, ttl, max, steps);
      && |e.sent| == |e.log|
      && (i < |e.exchanges| ==> Told(e.log, e.sent, e.exchanges[i]))
      && (id < |e.log| ==> Alone(e.log, e.exchanges, e.sent, id))
  {
    RunInv(s, ttl, max, steps);
  }

  /** The table never holds two registrations that want each other and never outgrows its bound. */
  lemma {:induction false} TableIsBounded(s: State, ttl: Time, max: nat, steps: seq<Step>)
    requires Initial(s)
    ensures var e := Run(s, ttl, max, steps); NoPairs(e.peers) && |e.peers| <= max
  {
    RunInv(s, ttl, max, steps);
  }
}
