/** The two-party punch and ready handshake (internal/advanced/rendezvous_client.go). */
module PunchHandshake {
  import opened Options

  datatype Kind = Punch | PunchAck | Ready | ReadyAck | Unrelated

  /** What one peer has seen of the other. */
  datatype Seen = Seen(punch: bool, punchAck: bool, ready: bool, readyAck: bool)

  const NOTHING := Seen(false, false, false, false)

  predicate InReadyPhase(p: Seen) {
    p.punch && p.punchAck
  }

  predicate Done(p: Seen) {
    p.punch && p.punchAck && p.ready && p.readyAck
  }

  /** The packet that opens each round. */
  function Beat(p: Seen): Kind {
    if InReadyPhase(p) then Ready else Punch
  }

  function Absorb(p: Seen, kind: Kind): Seen {
    match kind
    case Punch => p.(punch := true)
    case PunchAck => p.(punchAck := true)
    case Ready => p.(ready := true)
    case ReadyAck => p.(readyAck := true)
    case Unrelated => p
  }

  function Reply(kind: Kind): Option<Kind> {
    match kind
    case Punch => Some(PunchAck)
    case Ready => Some(ReadyAck)
    case _ => None
  }

  // ---------- one peer ----------

  /** What the read of one round brings. */
  datatype Arrival = Timeout | ReadError | Stranger | Garbled | Packet(kind: Kind)

  /** One round: whether the opening write succeeds, what arrives, and whether a reply could be written. */
  datatype Round = Round(written: bool, arrival: Arrival, replied: bool)

  datatype Outcome = Success | Failed | Cancelled

  /** The outcome of the rounds and everything that was sent; the context ends after the last round. */
  function Outcomes(p: Seen, rounds: seq<Round>, sent: seq<Kind>): (Outcome, seq<Kind>)
    decreases rounds
  {
    if rounds == [] then (Cancelled, sent)
    else
      var r, rest := rounds[0], rounds[1..];
      if !r.written then (Failed, sent)
      else
        var begun := sent + [Beat(p)];
        match r.arrival
        case ReadError => (Failed, begun)
        case Packet(kind) =>
          if Reply(kind).Some? && !r.replied then (Failed, begun)
          else
            var next := Absorb(p, kind);
            var replied := if Reply(kind).Some? then begun + [Reply(kind).value] else begun;
            if Done(next) then (Success, replied) else Outcomes(next, rest, replied)
        case _ => Outcomes(p, rest, begun)
  }

  // ---------- what success means ----------

  /** Nothing went wrong in the round: both writes that were due succeeded and the read did not fail. */
  predicate Clean(r: Round) {
    && r.written && r.arrival != ReadError
    && (r.arrival == Packet(Punch) || r.arrival == Packet(Ready) ==> r.replied)
  }

  predicate AllClean(rounds: seq<Round>) {
    forall r <- rounds :: Clean(r)
  }

  /** The kinds of packet that the rounds bring. */
  function Heard(rounds: seq<Round>): set<Kind> {
    set r | r in rounds && r.arrival.Packet? :: r.arrival.kind
  }

  const ALL_FOUR := {Punch, PunchAck, Ready, ReadyAck}

  function KindsOf(p: Seen): set<Kind> {
    (if p.punch then {Punch} else {}) + (if p.punchAck then {PunchAck} else {})
    + (if p.ready then {Ready} else {}) + (if p.readyAck then {ReadyAck} else {})
  }

  /** After `n` rounds, all of them clean, all four kinds have been heard. */
  ghost predicate CompleteBy(known: set<Kind>, rounds: seq<Round>, n: int) {
    0 <= n <= |rounds| && AllClean(rounds[..n]) && ALL_FOUR <= known + Heard(rounds[..n])
  }

  function First(r: Round): set<Kind> {
    if r.arrival.Packet? then {r.arrival.kind} else {}
  }

  lemma HeardFirst(rounds: seq<Round>, n: int)
    requires 0 < n <= |rounds|
    ensures AllClean(rounds[..n]) <==> Clean(rounds[0]) && AllClean(rounds[1..][..n - 1])
    ensures Heard(rounds[..n])
            == First(rounds[0]) + Heard(rounds[1..][..n - 1])
  {
    var front, rest := rounds[..n], rounds[1..][..n - 1];
    assert front == [rounds[0]] + rest;
    assert forall r :: r in front <==> r == rounds[0] || r in rest;
  }

  lemma KindsAbsorbed(p: Seen, kind: Kind)
    ensures kind in ALL_FOUR ==> KindsOf(Absorb(p, kind)) == KindsOf(p) + {kind}
    ensures kind == Unrelated ==> KindsOf(Absorb(p, kind)) == KindsOf(p)
    ensures Done(p) <==> ALL_FOUR <= KindsOf(p)
  {
  }

  /** One more round decides, or leaves the question to the later ones. */
  lemma CompleteByLater(known: set<Kind>, rounds: seq<Round>, n: int)
    requires 0 < n <= |rounds|
    ensures CompleteBy(known, rounds, n) <==>
            Clean(rounds[0]) && CompleteBy(known + First(rounds[0]), rounds[1..], n - 1)
  {
    HeardFirst(rounds, n);
  }

  lemma NotYet(known: set<Kind>, rounds: seq<Round>)
    requires !(ALL_FOUR <= known)
    ensures !CompleteBy(known, rounds, 0)
  {
    assert rounds[..0] == [] && known + Heard([]) == known;
  }

  lemma CompleteSoon(known: set<Kind>, rounds: seq<Round>, more: set<Kind>)
    requires !(ALL_FOUR <= known) && rounds != [] && more == known + First(rounds[0])
    ensures (exists n :: CompleteBy(known, rounds, n))
            <==> Clean(rounds[0]) && exists n :: CompleteBy(more, rounds[1..], n)
  {
    NotYet(known, rounds);
    if n :| CompleteBy(known, rounds, n) {
      CompleteByLater(known, rounds, n);
    }
    if m :| Clean(rounds[0]) && CompleteBy(more, rounds[1..], m) {
      CompleteByLater(known, rounds, m + 1);
    }
  }

  lemma CompleteNow(known: set<Kind>, rounds: seq<Round>)
    requires ALL_FOUR <= known
    ensures exists n :: CompleteBy(known, rounds, n)
  {
    assert CompleteBy(known, rounds, 0);
  }

  lemma KindsMore(known: set<Kind>, more: set<Kind>, rounds: seq<Round>)
    requires known * ALL_FOUR == more * ALL_FOUR
    ensures (exists n :: CompleteBy(known, rounds, n)) <==> (exists n :: CompleteBy(more, rounds, n))
  {
    assert forall k <- ALL_FOUR :: k in known <==> k in known * ALL_FOUR;
    assert forall k <- ALL_FOUR :: k in more <==> k in more * ALL_FOUR;
    forall n ensures CompleteBy(known, rounds, n) <==> CompleteBy(more, rounds, n) {
      if 0 <= n <= |rounds| {
        var heard := Heard(rounds[..n]);
        assert ALL_FOUR <= known + heard <==> forall k <- ALL_FOUR :: k in known || k in heard;
        assert ALL_FOUR <= more + heard <==> forall k <- ALL_FOUR :: k in more || k in heard;
      }
    }
  }

  lemma {:induction false} SuccessFrom(p: Seen, rounds: seq<Round>, sent: seq<Kind>)
    requires !Done(p)
    ensures Outcomes(p, rounds, sent).0 == Success <==> exists n :: CompleteBy(KindsOf(p), rounds, n)
    decreases rounds
  {
    hide CompleteBy;
    KindsAbsorbed(p, Unrelated);
    if rounds == [] {
      NoRoundsLeft(KindsOf(p));
    } else {
      var r, rest := rounds[0], rounds[1..];
      CompleteSoon(KindsOf(p), rounds, KindsOf(p) + First(r));
      if Clean(r) {
        if r.arrival.Packet? {
          var kind := r.arrival.kind;
          var next, begun := Absorb(p, kind), sent + [Beat(p)];
          var replied := if Reply(kind).Some? then begun + [Reply(kind).value] else begun;
          KindsAbsorbed(p, kind);
          KindsAbsorbed(next, kind);
          KindsMore(KindsOf(p) + {kind}, KindsOf(next), rest);
          if Done(next) {
            CompleteNow(KindsOf(next), rest);
          } else {
            SuccessFrom(next, rest, replied);
          }
        } else {
          assert KindsOf(p) + First(r) == KindsOf(p);
          SuccessFrom(p, rest, sent + [Beat(p)]);
        }
      }
    }
  }

  /** After some number of rounds without a failed write or read, a punch, a punch-ack, a ready and a ready-ack have
      all arrived. */
  ghost predicate AllHeard(rounds: seq<Round>) {
    exists n :: 0 <= n <= |rounds| && AllClean(rounds[..n]) && ALL_FOUR <= Heard(rounds[..n])
  }

  lemma FromNothing(rounds: seq<Round>)
    ensures (exists n :: CompleteBy(KindsOf(NOTHING), rounds, n)) <==> AllHeard(rounds)
  {
    assert KindsOf(NOTHING) == {};
    forall n | 0 <= n <= |rounds|
      ensures CompleteBy(KindsOf(NOTHING), rounds, n) <==> AllClean(rounds[..n]) && ALL_FOUR <= Heard(rounds[..n])
    {
      assert {} + Heard(rounds[..n]) == Heard(rounds[..n]);
    }
  }

  lemma NoRoundsLeft(known: set<Kind>)
    requires !(ALL_FOUR <= known)
    ensures !exists n :: CompleteBy(known, [], n)
  {
    NotYet(known, []);
    assert forall n :: CompleteBy(known, [], n) ==> n == 0;
  }

  lemma SuccessExactly(rounds: seq<Round>)
    ensures Outcomes(NOTHING, rounds, []).0 == Success <==> AllHeard(rounds)
  {
    SuccessFrom(NOTHING, rounds, []);
    FromNothing(rounds);
  }

  // ---------- one more round ----------

  /** What has been seen after one round, and after some. */
  function AfterOne(p: Seen, r: Round): Seen {
    if r.arrival.Packet? then Absorb(p, r.arrival.kind) else p
  }

  function After(p: Seen, rounds: seq<Round>): Seen
    decreases rounds
  {
    if rounds == [] then p else After(AfterOne(p, rounds[0]), rounds[1..])
  }

  lemma AfterOneKinds(p: Seen, r: Round)
    ensures KindsOf(AfterOne(p, r)) == KindsOf(p) + First(r) * ALL_FOUR
  {
    if r.arrival.Packet? {
      KindsAbsorbed(p, r.arrival.kind);
    }
  }

  lemma HeardAll(rounds: seq<Round>)
    requires rounds != []
    ensures Heard(rounds) == First(rounds[0]) + Heard(rounds[1..])
  {
    HeardFirst(rounds, |rounds|);
    assert rounds[..|rounds|] == rounds && rounds[1..][..|rounds| - 1] == rounds[1..];
  }

  lemma KindsWith(known: set<Kind>, first: set<Kind>, rest: set<Kind>)
    ensures known + first * ALL_FOUR + rest * ALL_FOUR == known + (first + rest) * ALL_FOUR
  {
  }

  lemma {:induction false} AfterKinds(p: Seen, rounds: seq<Round>)
    ensures KindsOf(After(p, rounds)) == KindsOf(p) + Heard(rounds) * ALL_FOUR
    decreases rounds
  {
    if rounds == [] {
      assert Heard(rounds) == {};
    } else {
      hide Heard, KindsOf, First, AfterOne;
      AfterOneKinds(p, rounds[0]);
      AfterKinds(AfterOne(p, rounds[0]), rounds[1..]);
      HeardAll(rounds);
      KindsWith(KindsOf(p), First(rounds[0]), Heard(rounds[1..]));
    }
  }

  lemma {:induction false} Resumes(p: Seen, rounds: seq<Round>, r: Round, sent: seq<Kind>)
    ensures var o := Outcomes(p, rounds, sent);
            Outcomes(p, rounds + [r], sent) == if o.0 == Cancelled then Outcomes(After(p, rounds), [r], o.1) else o
    decreases rounds
  {
    if rounds == [] {
      assert rounds + [r] == [r];
    } else {
      assert (rounds + [r])[1..] == rounds[1..] + [r];
      var begun := sent + [Beat(p)];
      if rounds[0].arrival.Packet? {
        var kind := rounds[0].arrival.kind;
        Resumes(Absorb(p, kind), rounds[1..], r, if Reply(kind).Some? then begun + [Reply(kind).value] else begun);
      } else {
        Resumes(p, rounds[1..], r, begun);
      }
    }
  }

  /** A round after which nobody failed or succeeded: it begins with a ready once a punch and a punch-ack were heard,
      else with a punch; a punch is answered by a punch-ack and a ready by a ready-ack; it ends the handshake when all
      four kinds have been heard, and fails when a write or the read does. After the end nothing more happens. */
  lemma OneMoreRound(rounds: seq<Round>, r: Round)
    ensures var (outcome, sent) := Outcomes(NOTHING, rounds, []);
      var heard := Heard(rounds) + First(r);
      var begun := sent + [if Punch in Heard(rounds) && PunchAck in Heard(rounds) then Ready else Punch];
      var answered :=
        if r.arrival == Packet(Punch) then begun + [PunchAck]
        else if r.arrival == Packet(Ready) then begun + [ReadyAck]
        else begun;
      Outcomes(NOTHING, rounds + [r], []) ==
        if outcome != Cancelled then (outcome, sent)
        else if !r.written then (Failed, sent)
        else if r.arrival == ReadError || (answered != begun && !r.replied) then (Failed, begun)
        else if r.arrival.Packet? && {Punch, PunchAck, Ready, ReadyAck} <= heard then (Success, answered)
        else (Cancelled, answered)
  {
    var o := Outcomes(NOTHING, rounds, []);
    var p := After(NOTHING, rounds);
    Resumes(NOTHING, rounds, r, []);
    AfterKinds(NOTHING, rounds);
    hide Heard;
    assert KindsOf(NOTHING) == {};
    assert Punch in KindsOf(p) <==> p.punch;
    assert PunchAck in KindsOf(p) <==> p.punchAck;
    if r.arrival.Packet? {
      KindsAbsorbed(p, r.arrival.kind);
      KindsAbsorbed(Absorb(p, r.arrival.kind), r.arrival.kind);
    }
    assert [r][1..] == [];
  }

  method Handshake(rounds: seq<Round>) returns (outcome: Outcome, sent: seq<Kind>)
    ensures (outcome, sent) == Outcomes(NOTHING, rounds, [])
    ensures outcome == Success <==> AllHeard(rounds)
  {
    hide AllHeard;
    SuccessExactly(rounds);
    sent := [];
    var peerPunchSeen, peerPunchAckSeen, peerReadySeen, peerReadyAckSeen := false, false, false, false;
    var i := 0;
    while i < |rounds|
      invariant 0 <= i <= |rounds|
      invariant Outcomes(NOTHING, rounds, [])
                == Outcomes(Seen(peerPunchSeen, peerPunchAckSeen, peerReadySeen, peerReadyAckSeen), rounds[i..], sent)
    {
      var round := rounds[i];
      assert rounds[i..][0] == round && rounds[i..][1..] == rounds[i + 1..];
      i := i + 1;
      if !round.written {
        return Failed, sent;
      }
      sent := sent + [if peerPunchSeen && peerPunchAckSeen then Ready else Punch];
      match round.arrival {
        case Timeout => continue;
        case Stranger => continue;
        case Garbled => continue;
        case ReadError => return Failed, sent;
        case Packet(kind) =>
          match kind {
            case Punch =>
              peerPunchSeen := true;
              if !round.replied { return Failed, sent; }
              sent := sent + [PunchAck];
            case PunchAck => peerPunchAckSeen := true;
            case Ready =>
              peerReadySeen := true;
              if !round.replied { return Failed, sent; }
              sent := sent + [ReadyAck];
            case ReadyAck => peerReadyAckSeen := true;
            case Unrelated =>
          }
      }
      if peerPunchSeen && peerPunchAckSeen && peerReadySeen && peerReadyAckSeen {
        return Success, sent;
      }
    }
    return Cancelled, sent;
  }

  // ---------- both peers and the network ----------

  datatype Status = Running | Succeeded | GaveUp

  /** One side. `sent` is everything it ever put on the wire: a packet in it may be delivered at any later
      moment, any number of times, in any order, or never. */
  datatype Side = Side(seen: Seen, sent: set<Kind>, status: Status)

  datatype Net = Net(left: Side, right: Side)

  datatype Who = Left | Right

  datatype Step =
    | Open(who: Who)                             // the write that opens a round
    | Deliver(who: Who, kind: Kind, replied: bool)
    | Abort(who: Who)                            // a failed write or read, or the end of the context

  function Of(n: Net, who: Who): Side {
    if who == Left then n.left else n.right
  }

  function Other(who: Who): Who {
    if who == Left then Right else Left
  }

  function With(n: Net, who: Who, side: Side): Net {
    if who == Left then n.(left := side) else n.(right := side)
  }

  /** One side takes in a packet and answers it. */
  function Received(s: Side, kind: Kind, replied: bool): Side {
    var seen := Absorb(s.seen, kind);
    if Reply(kind).Some? && !replied then Side(seen, s.sent, GaveUp)
    else
      Side(seen, s.sent + (if Reply(kind).Some? then {Reply(kind).value} else {}), if Done(seen) then Succeeded else Running)
  }

  function Next(n: Net, step: Step): Net {
    var s := Of(n, step.who);
    if !s.status.Running? then n
    else
      match step
      case Open(who) => With(n, who, s.(sent := s.sent + {Beat(s.seen)}))
      case Deliver(who, kind, replied) =>
        if kind in Of(n, Other(who)).sent then With(n, who, Received(s, kind, replied)) else n
      case Abort(who) => With(n, who, s.(status := GaveUp))
  }

  const START := Net(Side(NOTHING, {}, Running), Side(NOTHING, {}, Running))

  function Run(n: Net, steps: seq<Step>): Net {
    if steps == [] then n else Next(Run(n, steps[..|steps| - 1]), steps[|steps| - 1])
  }

  /** What one side has sent says what it has seen, and what it has seen was sent by the other. */
  ghost predicate Honest(s: Side, other: Side) {
    && (s.seen.punch ==> Punch in other.sent)
    && (PunchAck in s.sent ==> s.seen.punch)
    && (Ready in s.sent ==> InReadyPhase(s.seen))
    && (ReadyAck in s.sent ==> s.seen.ready)
    && (!s.status.GaveUp? && s.seen.punch ==> PunchAck in s.sent)
    && (!s.status.GaveUp? && s.seen.ready ==> ReadyAck in s.sent)
    && (s.seen.punchAck ==> PunchAck in other.sent)
    && (s.seen.ready ==> Ready in other.sent)
    && (s.seen.readyAck ==> ReadyAck in other.sent)
    && (s.status.Succeeded? ==> Done(s.seen))
    && (s.status.Running? ==> !Done(s.seen))
  }

  ghost predicate Inv(n: Net) {
    Honest(n.left, n.right) && Honest(n.right, n.left)
  }

  lemma ReceivedIsHonest(s: Side, other: Side, kind: Kind, replied: bool)
    requires Honest(s, other) && s.status.Running? && kind in other.sent
    ensures Honest(Received(s, kind, replied), other)
  {
  }

  lemma MoreIsStillHonest(s: Side, other: Side, more: Side)
    requires Honest(s, other) && other.sent <= more.sent
    ensures Honest(s, more)
  {
  }

  lemma NextInv(n: Net, step: Step)
    requires Inv(n)
    ensures Inv(Next(n, step))
  {
    var s, other := Of(n, step.who), Of(n, Other(step.who));
    if s.status.Running? {
      if step.Deliver? && step.kind in other.sent { ReceivedIsHonest(s, other, step.kind, step.replied); }
      MoreIsStillHonest(other, s, Of(Next(n, step), step.who));
    }
  }

  lemma {:induction false} RunInv(n: Net, steps: seq<Step>)
    requires Inv(n)
    ensures Inv(Run(n, steps))
  {
    if steps != [] {
      RunInv(n, steps[..|steps| - 1]);
      NextInv(Run(n, steps[..|steps| - 1]), steps[|steps| - 1]);
    }
  }

  /** If one side's handshake succeeds, then whatever was lost, repeated or reordered, the other side has
      seen its punch, punch-ack and ready, both are in the ready phase, and the one packet kind the other
      may still need has been sent. */
  lemma {:induction false} SuccessIsMutual(steps: seq<Step>, who: Who)
    requires Of(Run(START, steps), who).status.Succeeded?
    ensures var n := Run(START, steps);
            var mine, theirs := Of(n, who), Of(n, Other(who));
            && theirs.seen.punch && theirs.seen.punchAck && theirs.seen.ready
            && InReadyPhase(mine.seen)
            && ReadyAck in mine.sent
  {
    RunInv(START, steps);
  }

  /** A ready-ack is delivered to a side while it is still running. */
  ghost predicate ReadyAckArrives(n: Net, more: seq<Step>, who: Who) {
    more != [] &&
    var init, last := more[..|more| - 1], more[|more| - 1];
    || ReadyAckArrives(n, init, who)
    || (last.Deliver? && last.who == who && last.kind == ReadyAck && Of(Run(n, init), who).status.Running?)
  }

  /** What is true of a side whose peer has returned. */
  lemma PeerReturned(n: Net, who: Who)
    requires Inv(n) && Of(n, Other(who)).status.Succeeded?
    ensures var s := Of(n, who).seen; s.punch && s.punchAck && s.ready
    ensures ReadyAck in Of(n, Other(who)).sent
    ensures Of(n, who).status.Running? ==> !Of(n, who).seen.readyAck
  {
  }

  lemma ReturnedStays(n: Net, step: Step, who: Who)
    requires !Of(n, who).status.Running?
    ensures Of(Next(n, step), who) == Of(n, who)
  {
  }

  /** Once one side has returned it answers nothing more. From then on the other side succeeds exactly when
      one of the ready-acks already sent reaches it while it still runs; no other packet helps, and a lost
      ready-ack is not sent again. */
  lemma {:induction false} TheOtherNeedsOneReadyAck(n: Net, more: seq<Step>, who: Who)
    requires Inv(n) && Of(n, Other(who)).status.Succeeded? && Of(n, who).status.Running?
    ensures Inv(Run(n, more)) && Of(Run(n, more), Other(who)).status.Succeeded?
    ensures Of(Run(n, more), who).status.Succeeded? <==> ReadyAckArrives(n, more, who)
  {
    if more != [] {
      var init, last := more[..|more| - 1], more[|more| - 1];
      TheOtherNeedsOneReadyAck(n, init, who);
      var k := Run(n, init);
      RunInv(n, init);
      NextInv(k, last);
      ReturnedStays(k, last, Other(who));
      if Of(k, who).status.Running? { PeerReturned(k, who); } else { ReturnedStays(k, last, who); }
    }
  }

  // ---------- the method in the machine ----------

  /** The steps of the machine that one round stands for. */
  function StepsOf(who: Who, r: Round): seq<Step> {
    if !r.written then [Abort(who)]
    else
      match r.arrival
      case ReadError => [Open(who), Abort(who)]
      case Packet(kind) => if kind == Unrelated then [Open(who)] else [Open(who), Deliver(who, kind, r.replied)]
      case _ => [Open(who)]
  }

  /** All rounds, and then the end of the context. */
  function StepsOfAll(who: Who, rounds: seq<Round>): seq<Step> {
    if rounds == [] then [Abort(who)] else StepsOf(who, rounds[0]) + StepsOfAll(who, rounds[1..])
  }

  function StatusAfter(outcome: Outcome): Status {
    if outcome == Success then Succeeded else GaveUp
  }

  function AsSet(sent: seq<Kind>): set<Kind> {
    set k | k in sent
  }

  lemma {:induction false} RunInParts(n: Net, first: seq<Step>, second: seq<Step>)
    ensures Run(n, first + second) == Run(Run(n, first), second)
  {
    if second == [] {
      assert first + [] == first;
    } else {
      var all, last := first + second, |second| - 1;
      assert all[..|all| - 1] == first + second[..last] && all[|all| - 1] == second[last];
      RunInParts(n, first, second[..last]);
    }
  }

  lemma {:induction false} StoppedStays(n: Net, steps: seq<Step>, who: Who)
    requires !Of(n, who).status.Running?
    requires forall step <- steps :: step.who == who
    ensures Run(n, steps) == n
  {
    if steps != [] {
      StoppedStays(n, steps[..|steps| - 1], who);
    }
  }

  lemma {:induction false} StepsAreMine(who: Who, rounds: seq<Round>)
    ensures forall step <- StepsOfAll(who, rounds) :: step.who == who
  {
    if rounds != [] {
      StepsAreMine(who, rounds[1..]);
    }
  }

  lemma TwoSteps(n: Net, a: Step, b: Step)
    ensures Run(n, [a]) == Next(n, a) && Run(n, [a, b]) == Next(Next(n, a), b)
  {
    assert [a][..0] == [] && [a, b][..1] == [a];
  }

  /** What one round makes of a running side. */
  function AfterRound(s: Side, r: Round): Side {
    if !r.written then s.(status := GaveUp)
    else
      var begun := s.(sent := s.sent + {Beat(s.seen)});
      match r.arrival
      case ReadError => begun.(status := GaveUp)
      case Packet(kind) => if kind == Unrelated then begun else Received(begun, kind, r.replied)
      case _ => begun
  }

  lemma RoundInMachine(n: Net, who: Who, r: Round)
    requires Of(n, who).status.Running?
    requires r.arrival.Packet? && r.arrival.kind != Unrelated ==> r.arrival.kind in Of(n, Other(who)).sent
    ensures Run(n, StepsOf(who, r)) == With(n, who, AfterRound(Of(n, who), r))
  {
    TwoSteps(n, Open(who), Abort(who));
    TwoSteps(n, Abort(who), Abort(who));
    if r.arrival.Packet? {
      TwoSteps(n, Open(who), Deliver(who, r.arrival.kind, r.replied));
    }
  }

  lemma RoundOutcome(s: Side, rounds: seq<Round>, sent: seq<Kind>)
    requires rounds != [] && s.status.Running? && !Done(s.seen) && s.sent == AsSet(sent)
    ensures var t := AfterRound(s, rounds[0]);
            var o := Outcomes(s.seen, rounds, sent);
            if t.status.Running? then
              !Done(t.seen) && exists more :: t.sent == AsSet(more) && o == Outcomes(t.seen, rounds[1..], more)
            else t.status == StatusAfter(o.0) && t.sent == AsSet(o.1)
  {
    var r, rest := rounds[0], rounds[1..];
    var begun := sent + [Beat(s.seen)];
    SentOneMore(sent, Beat(s.seen));
    if r.written && !r.arrival.Packet? && r.arrival != ReadError {
      assert Outcomes(s.seen, rounds, sent) == Outcomes(s.seen, rest, begun);
    }
    if r.written && r.arrival.Packet? {
      var kind := r.arrival.kind;
      if Reply(kind).Some? {
        SentOneMore(begun, Reply(kind).value);
      }
      var replied := if Reply(kind).Some? then begun + [Reply(kind).value] else begun;
      var next := Absorb(s.seen, kind);
      if !Done(next) && (Reply(kind).Some? ==> r.replied) {
        assert Outcomes(s.seen, rounds, sent) == Outcomes(next, rest, replied);
      }
    }
  }

  lemma SentOneMore(sent: seq<Kind>, kind: Kind)
    ensures AsSet(sent + [kind]) == AsSet(sent) + {kind}
  {
  }

  /** The kinds that the rounds bring are on the wire. */
  ghost predicate OnTheWire(rounds: seq<Round>, sent: set<Kind>) {
    forall r <- rounds :: r.arrival.Packet? && r.arrival.kind != Unrelated ==> r.arrival.kind in sent
  }

  lemma {:induction false} HandshakeFrom(n: Net, who: Who, rounds: seq<Round>, sent: seq<Kind>)
    requires Of(n, who).status.Running? && !Done(Of(n, who).seen) && Of(n, who).sent == AsSet(sent)
    requires OnTheWire(rounds, Of(n, Other(who)).sent)
    ensures var o := Outcomes(Of(n, who).seen, rounds, sent);
            var e := Run(n, StepsOfAll(who, rounds));
            && Of(e, who).status == StatusAfter(o.0) && Of(e, who).sent == AsSet(o.1)
            && Of(e, Other(who)) == Of(n, Other(who))
    decreases rounds
  {
    hide Run, Next, AfterRound, Outcomes;
    if rounds == [] {
      EndOfContext(n, who, sent);
    } else {
      var k := With(n, who, AfterRound(Of(n, who), rounds[0]));
      RoundInMachine(n, who, rounds[0]);
      RunInParts(n, StepsOf(who, rounds[0]), StepsOfAll(who, rounds[1..]));
      RoundOutcome(Of(n, who), rounds, sent);
      if Of(k, who).status.Running? {
        var more :| Of(k, who).sent == AsSet(more) &&
                    Outcomes(Of(n, who).seen, rounds, sent) == Outcomes(Of(k, who).seen, rounds[1..], more);
        HandshakeFrom(k, who, rounds[1..], more);
      } else {
        StepsAreMine(who, rounds[1..]);
        StoppedStays(k, StepsOfAll(who, rounds[1..]), who);
      }
    }
  }

  lemma EndOfContext(n: Net, who: Who, sent: seq<Kind>)
    requires Of(n, who).status.Running?
    ensures Outcomes(Of(n, who).seen, [], sent) == (Cancelled, sent)
    ensures Run(n, StepsOfAll(who, [])) == With(n, who, Of(n, who).(status := GaveUp))
  {
    TwoSteps(n, Abort(who), Abort(who));
  }

  /** The method is one side of the machine: the steps that its rounds stand for end with its outcome and with what
      it sent, and leave the other side as it is. So what every run of the machine keeps is about the method. */
  lemma HandshakeInMachine(n: Net, who: Who, rounds: seq<Round>)
    requires Of(n, who) == Side(NOTHING, {}, Running)
    requires OnTheWire(rounds, Of(n, Other(who)).sent)
    ensures var o := Outcomes(NOTHING, rounds, []);
            var e := Run(n, StepsOfAll(who, rounds));
            && (Of(e, who).status.Succeeded? <==> o.0 == Success) && !Of(e, who).status.Running?
            && Of(e, who).sent == AsSet(o.1)
            && Of(e, Other(who)) == Of(n, Other(who))
  {
    assert AsSet([]) == {};
    HandshakeFrom(n, who, rounds, []);
  }

  // ---------- progress ----------

  /** Both sides open a round. */
  function Opened(n: Net): Net {
    Next(Next(n, Open(Left)), Open(Right))
  }

  /** Each side receives one packet of a kind from the other and answers it. */
  function Exchanged(n: Net, kind: Kind): Net {
    Next(Next(n, Deliver(Left, kind, true)), Deliver(Right, kind, true))
  }

  ghost predicate Alive(n: Net) {
    Inv(n) && !n.left.status.GaveUp? && !n.right.status.GaveUp?
  }

  function AtLeast(s: Seen, t: Seen): bool {
    (t.punch ==> s.punch) && (t.punchAck ==> s.punchAck) && (t.ready ==> s.ready) && (t.readyAck ==> s.readyAck)
  }

  ghost predicate Reached(n: Net, t: Seen) {
    Alive(n) && AtLeast(n.left.seen, t) && AtLeast(n.right.seen, t)
  }

  lemma OpenedKeeps(n: Net, t: Seen)
    requires Reached(n, t)
    ensures Reached(Opened(n), t)
    ensures Punch in Opened(n).left.sent && Punch in Opened(n).right.sent
    ensures t.punch && t.punchAck ==> Ready in Opened(n).left.sent && Ready in Opened(n).right.sent
  {
    NextInv(n, Open(Left));
    NextInv(Next(n, Open(Left)), Open(Right));
  }

  lemma ExchangedReaches(n: Net, t: Seen, kind: Kind)
    requires Reached(n, t) && kind in n.left.sent && kind in n.right.sent
    ensures Reached(Exchanged(n, kind), Absorb(t, kind))
  {
    var m := Next(n, Deliver(Left, kind, true));
    NextInv(n, Deliver(Left, kind, true));
    NextInv(m, Deliver(Right, kind, true));
    assert kind in m.left.sent;
  }

  /** Two openings and three exchanges, after which only ready-acks are missing. */
  function AlmostFinished(n: Net): Net {
    Exchanged(Opened(Exchanged(Exchanged(Opened(n), Punch), PunchAck)), Ready)
  }

  lemma AlmostFinishedReaches(n: Net)
    requires Reached(n, NOTHING)
    ensures Reached(AlmostFinished(n), Seen(true, true, true, false))
  {
    OpenedKeeps(n, NOTHING);
    ExchangedReaches(Opened(n), NOTHING, Punch);
    var a := Exchanged(Opened(n), Punch);
    ExchangedReaches(a, Seen(true, false, false, false), PunchAck);
    var b := Exchanged(a, PunchAck);
    OpenedKeeps(b, Seen(true, true, false, false));
    ExchangedReaches(Opened(b), Seen(true, true, false, false), Ready);
  }

  /** While both sides are still running, no history of losses keeps them from finishing together. */
  lemma {:induction false} BothCanFinish(steps: seq<Step>)
    requires var n := Run(START, steps); n.left.status.Running? && n.right.status.Running?
    ensures var k := Exchanged(AlmostFinished(Run(START, steps)), ReadyAck);
            k.left.status.Succeeded? && k.right.status.Succeeded?
  {
    RunInv(START, steps);
    AlmostFinishedReaches(Run(START, steps));
    ExchangedReaches(AlmostFinished(Run(START, steps)), Seen(true, true, true, false), ReadyAck);
  }

  lemma WithoutReadyAck(n: Net, step: Step)
    requires !n.right.seen.readyAck && Inv(n) && !(step.Deliver? && step.who == Right && step.kind == ReadyAck)
    ensures !Next(n, step).right.seen.readyAck && Inv(Next(n, step))
  {
    NextInv(n, step);
  }

  lemma OpenedWaits(n: Net)
    requires Inv(n) && !n.right.seen.readyAck
    ensures Inv(Opened(n)) && !Opened(n).right.seen.readyAck
  {
    WithoutReadyAck(n, Open(Left));
    WithoutReadyAck(Next(n, Open(Left)), Open(Right));
  }

  lemma ExchangedWaits(n: Net, kind: Kind)
    requires Inv(n) && !n.right.seen.readyAck && kind != ReadyAck
    ensures Inv(Exchanged(n, kind)) && !Exchanged(n, kind).right.seen.readyAck
  {
    WithoutReadyAck(n, Deliver(Left, kind, true));
    WithoutReadyAck(Next(n, Deliver(Left, kind, true)), Deliver(Right, kind, true));
  }

  lemma KeepsWaiting(n: Net)
    requires Inv(n) && !n.right.seen.readyAck
    ensures !AlmostFinished(n).right.seen.readyAck && Inv(AlmostFinished(n))
  {
    OpenedWaits(n);
    ExchangedWaits(Opened(n), Punch);
    ExchangedWaits(Exchanged(Opened(n), Punch), PunchAck);
    OpenedWaits(Exchanged(Exchanged(Opened(n), Punch), PunchAck));
    ExchangedWaits(Opened(Exchanged(Exchanged(Opened(n), Punch), PunchAck)), Ready);
  }

  /** The other side of it: the same history with the right side's last ready-ack lost ends with the left
      handshake successful and the right one given up. */
  lemma {:induction false} OneSideMayFinishAlone(steps: seq<Step>)
    requires var n := Run(START, steps);
             n.left.status.Running? && n.right.status.Running? && !n.right.seen.readyAck
    ensures var k := Next(Next(AlmostFinished(Run(START, steps)), Deliver(Left, ReadyAck, true)), Abort(Right));
            k.left.status.Succeeded? && k.right.status.GaveUp?
  {
    RunInv(START, steps);
    var n := Run(START, steps);
    AlmostFinishedReaches(n);
    var c := AlmostFinished(n);
    KeepsWaiting(n);
  }
}
