/** The grace timer between a disconnect and the cleanup of a client's streams
    (server/tunnel/reconnect_cleanup.go). Expiry runs as three critical sections; an epoch per client fences it. */
module ReconnectCleanup {
  type Client = string
  type Timer = nat

  const TWO64 := 0x1_0000_0000_0000_0000
  type Uint64 = n: nat | n < TWO64

  /** The epochs of the clients (missing ones are 0), the current timers, the timers that were told to stop, and
      the number of timers made. */
  datatype Fence = Fence(epochs: map<Client, Uint64>, timers: map<Client, Timer>, stopped: set<Timer>, made: nat)

  function Epoch(f: Fence, client: Client): Uint64 {
    if client in f.epochs then f.epochs[client] else 0
  }

  function Bumped(f: Fence, client: Client): Fence {
    var stopped := if client in f.timers then f.stopped + {f.timers[client]} else f.stopped;
    f.(epochs := f.epochs[client := (Epoch(f, client) + 1) % TWO64], stopped := stopped)
  }

  function Scheduled(f: Fence, client: Client): Fence {
    Bumped(f, client).(timers := f.timers[client := f.made], made := f.made + 1)
  }

  function Cancelled(f: Fence, client: Client): Fence {
    var b := Bumped(f, client);
    if client in f.timers then b.(timers := f.timers - {client}) else b
  }

  /** The last section of an expiry that finds its epoch. */
  function Released(f: Fence, client: Client): Fence {
    f.(timers := f.timers - {client})
  }

  class Manager {
    var reconnectEpochs: map<Client, Uint64>
    var reconnectTimers: map<Client, Timer>
    var stopped: set<Timer>
    var made: nat
    /** The clients whose streams were disconnected, latest last. */
    var disconnected: seq<Client>

    constructor ()
      ensures View() == Fence(map[], map[], {}, 0) && disconnected == []
    {
      reconnectEpochs, reconnectTimers, stopped, made, disconnected := map[], map[], {}, 0, [];
    }

    function View(): Fence
      reads this
    {
      Fence(reconnectEpochs, reconnectTimers, stopped, made)
    }

    method Bump(clientId: Client)
      modifies this`reconnectEpochs
      ensures reconnectEpochs == old(reconnectEpochs)[clientId := (Epoch(old(View()), clientId) + 1) % TWO64]
    {
      var epoch := if clientId in reconnectEpochs then reconnectEpochs[clientId] else 0;
      reconnectEpochs := reconnectEpochs[clientId := (epoch + 1) % TWO64];
    }

    method ScheduleReconnectCleanup(clientId: Client) returns (timer: Timer, epoch: Uint64)
      modifies this`reconnectEpochs, this`reconnectTimers, this`stopped, this`made
      ensures View() == Scheduled(old(View()), clientId)
      ensures timer == old(made) && epoch == Epoch(View(), clientId)
      ensures reconnectTimers == old(reconnectTimers)[clientId := timer] && made == old(made) + 1
      ensures stopped == old(stopped) + if clientId in old(reconnectTimers) then {old(reconnectTimers)[clientId]} else {}
      ensures var before: int := if clientId in old(reconnectEpochs) then old(reconnectEpochs)[clientId] else 0;
              && reconnectEpochs == old(reconnectEpochs)[clientId := epoch]
              && epoch == if before == 0xffff_ffff_ffff_ffff then 0 else before + 1
    {
      if clientId in reconnectTimers {
        stopped := stopped + {reconnectTimers[clientId]};
      }
      Bump(clientId);
      epoch := reconnectEpochs[clientId];
      timer := made;
      made := made + 1;
      reconnectTimers := reconnectTimers[clientId := timer];
    }

    method CancelReconnectCleanup(clientId: Client)
      modifies this`reconnectEpochs, this`reconnectTimers, this`stopped
      ensures View() == Cancelled(old(View()), clientId)
      ensures reconnectTimers == old(reconnectTimers) - {clientId}
      ensures stopped == old(stopped) + if clientId in old(reconnectTimers) then {old(reconnectTimers)[clientId]} else {}
      ensures var before: int := if clientId in old(reconnectEpochs) then old(reconnectEpochs)[clientId] else 0;
              reconnectEpochs ==
              old(reconnectEpochs)[clientId := if before == 0xffff_ffff_ffff_ffff then 0 else before + 1]
    {
      if clientId in reconnectTimers {
        stopped := stopped + {reconnectTimers[clientId]};
        reconnectTimers := reconnectTimers - {clientId};
      }
      Bump(clientId);
    }

    /** The first section; the second asks the hub without the lock. */
    method ExpireChecksEpoch(clientId: Client, epoch: Uint64) returns (current: bool)
      ensures current <==> Epoch(View(), clientId) == epoch
      ensures current <==> epoch == if clientId in reconnectEpochs then reconnectEpochs[clientId] else 0
    {
      current := epoch == if clientId in reconnectEpochs then reconnectEpochs[clientId] else 0;
    }

    /** The third section. */
    method ExpireDisconnects(clientId: Client, epoch: Uint64)
      modifies this`reconnectTimers, this`disconnected
      ensures if Epoch(old(View()), clientId) == epoch
              then View() == Released(old(View()), clientId) && disconnected == old(disconnected) + [clientId]
              else View() == old(View()) && disconnected == old(disconnected)
      ensures reconnectTimers == if epoch == Epoch(old(View()), clientId) then old(reconnectTimers) - {clientId}
                                 else old(reconnectTimers)
    {
      var current := ExpireChecksEpoch(clientId, epoch);
      if !current {
        return;
      }
      reconnectTimers := reconnectTimers - {clientId};
      disconnected := disconnected + [clientId];
    }
  }

  // ---------- runs ----------

  /** How far the expiry of a timer has come. */
  datatype Phase = Armed | Fired | EpochSeen | SeenOffline | Applied | Dropped

  /** `bump` counts the client's epoch changes up to and including this schedule, without wrapping. */
  datatype Schedule = Schedule(client: Client, epoch: Uint64, bump: nat, phase: Phase)

  /** `connected` is what the hub answers; `owed` holds the connect notifications that have not cancelled yet;
      `bumps` counts epoch changes without wrapping; `effects` names the schedules that disconnected streams. */
  datatype State = State(fence: Fence, schedules: seq<Schedule>, connected: set<Client>, owed: multiset<Client>,
                         bumps: map<Client, nat>, effects: seq<Timer>)

  datatype Step =
    | Schedules(client: Client)
    | Cancels(client: Client)
    | Connects(client: Client)
    | NotifiesConnect(client: Client)
    | Disconnects(client: Client)
    | Fires(timer: Timer)
    | ChecksEpoch(timer: Timer)
    | AsksHub(timer: Timer)
    | Applies(timer: Timer)

  predicate Initial(s: State) {
    && s.fence == Fence(map[], map[], {}, 0)
    && s.schedules == [] && s.connected == {} && s.owed == multiset{} && s.bumps == map[] && s.effects == []
  }

  function Bumps(s: State, client: Client): nat {
    if client in s.bumps then s.bumps[client] else 0
  }

  function WithBump(s: State, client: Client): State {
    s.(bumps := s.bumps[client := Bumps(s, client) + 1])
  }

  function Cancel(s: State, client: Client): State {
    WithBump(s, client).(fence := Cancelled(s.fence, client))
  }

  function At(s: State, timer: Timer, phase: Phase): State
    requires timer < |s.schedules|
  {
    s.(schedules := s.schedules[timer := s.schedules[timer].(phase := phase)])
  }

  predicate In(s: State, timer: Timer, phase: Phase) {
    timer < |s.schedules| && s.schedules[timer].phase == phase
  }

  predicate Current(s: State, timer: Timer)
    requires timer < |s.schedules|
  {
    Epoch(s.fence, s.schedules[timer].client) == s.schedules[timer].epoch
  }

  function Next(s: State, step: Step): State {
    match step
    case Schedules(c) =>
      var t := WithBump(s, c);
      var fence := Scheduled(s.fence, c);
      t.(fence := fence, schedules := s.schedules + [Schedule(c, Epoch(fence, c), Bumps(t, c), Armed)])
    case Cancels(c) => Cancel(s, c)
    case Connects(c) => s.(connected := s.connected + {c}, owed := s.owed + multiset{c})
    case NotifiesConnect(c) => if c in s.owed then Cancel(s, c).(owed := s.owed - multiset{c}) else s
    case Disconnects(c) => s.(connected := s.connected - {c})
    case Fires(i) => if In(s, i, Armed) && i !in s.fence.stopped then At(s, i, Fired) else s
    case ChecksEpoch(i) => if In(s, i, Fired) then At(s, i, if Current(s, i) then EpochSeen else Dropped) else s
    case AsksHub(i) =>
      if In(s, i, EpochSeen) then At(s, i, if s.schedules[i].client in s.connected then Dropped else SeenOffline) else s
    case Applies(i) =>
      if !In(s, i, SeenOffline) then s
      else if !Current(s, i) then At(s, i, Dropped)
      else At(s, i, Applied).(fence := Released(s.fence, s.schedules[i].client), effects := s.effects + [i])
  }

  function Run(s: State, steps: seq<Step>): State
    decreases |steps|
  {
    if steps == [] then s else Next(Run(s, steps[..|steps| - 1]), steps[|steps| - 1])
  }

  predicate Acts(s: State, i: Timer) {
    In(s, i, SeenOffline) && Current(s, i)
  }

  // ---------- the epoch counts the bumps ----------

  predicate Counted(s: State, c: Client) {
    Epoch(s.fence, c) == Bumps(s, c) % TWO64
  }

  ghost predicate EpochsCount(s: State) {
    forall c :: Counted(s, c)
  }

  /** A schedule was made at some bump of its client. */
  ghost predicate SchedulesCount(s: State) {
    forall sc <- s.schedules :: sc.epoch == sc.bump % TWO64 && 1 <= sc.bump <= Bumps(s, sc.client)
  }

  /** Effects name applied schedules, each once. */
  ghost predicate EffectsApplied(schedules: seq<Schedule>, effects: seq<Timer>) {
    && (forall i <- effects :: i < |schedules| && schedules[i].phase == Applied)
    && (forall i, j :: 0 <= i < j < |effects| ==> effects[i] != effects[j])
  }

  /** An expiry that found its client offline, and is still current although the client is connected now, has a
      connect notification owed to it. */
  ghost predicate ReconnectOwed(s: State) {
    forall sc <- s.schedules ::
      sc.phase == SeenOffline && sc.bump == Bumps(s, sc.client) && sc.client in s.connected ==> sc.client in s.owed
  }

  predicate Bumping(s: State, step: Step, c: Client) {
    match step
    case Schedules(d) => d == c
    case Cancels(d) => d == c
    case NotifiesConnect(d) => d == c && c in s.owed
    case _ => false
  }

  lemma BumpsNext(s: State, step: Step, c: Client)
    ensures Bumps(Next(s, step), c) == Bumps(s, c) + if Bumping(s, step, c) then 1 else 0
  {
  }

  lemma EpochNext(s: State, step: Step, c: Client)
    ensures Epoch(Next(s, step).fence, c) ==
            if Bumping(s, step, c) then (Epoch(s.fence, c) + 1) % TWO64 else Epoch(s.fence, c)
  {
  }

  lemma OneMore(n: nat)
    ensures (n % TWO64 + 1) % TWO64 == (n + 1) % TWO64
  {
  }

  lemma EpochsNext(s: State, step: Step)
    requires EpochsCount(s)
    ensures EpochsCount(Next(s, step))
  {
    hide Next;
    forall c ensures Counted(Next(s, step), c) {
      BumpsNext(s, step, c);
      EpochNext(s, step, c);
      OneMore(Bumps(s, c));
      assert Counted(s, c);
    }
  }

  lemma SchedulesNext(s: State, step: Step)
    requires EpochsCount(s) && SchedulesCount(s)
    ensures SchedulesCount(Next(s, step))
  {
    var t := Next(s, step);
    EpochsNext(s, step);
    forall sc | sc in t.schedules ensures sc.epoch == sc.bump % TWO64 && 1 <= sc.bump <= Bumps(t, sc.client) {
      assert Counted(t, sc.client);
    }
  }

  lemma EffectsNext(s: State, step: Step)
    requires EffectsApplied(s.schedules, s.effects)
    ensures EffectsApplied(Next(s, step).schedules, Next(s, step).effects)
  {
  }

  lemma OwedNext(s: State, step: Step)
    requires SchedulesCount(s) && ReconnectOwed(s)
    ensures ReconnectOwed(Next(s, step))
  {
  }

  ghost predicate Inv(s: State) {
    EpochsCount(s) && SchedulesCount(s) && EffectsApplied(s.schedules, s.effects) && ReconnectOwed(s)
  }

  lemma NextInv(s: State, step: Step)
    requires Inv(s)
    ensures Inv(Next(s, step))
  {
    EpochsNext(s, step);
    SchedulesNext(s, step);
    EffectsNext(s, step);
    OwedNext(s, step);
  }

  lemma {:induction false} RunInv(s: State, steps: seq<Step>)
    requires Inv(s)
    ensures Inv(Run(s, steps))
  {
    if steps != [] {
      RunInv(s, steps[..|steps| - 1]);
      NextInv(Run(s, steps[..|steps| - 1]), steps[|steps| - 1]);
    }
  }

  lemma InitialInv(s: State)
    requires Initial(s)
    ensures Inv(s)
  {
  }

  // ---------- which timers are stopped ----------

  /** The client's timer in the map is its latest schedule. */
  predicate Latest(s: State, c: Client) {
    c in s.fence.timers ==>
      && s.fence.timers[c] < |s.schedules| && s.schedules[s.fence.timers[c]].client == c
      && s.schedules[s.fence.timers[c]].bump == Bumps(s, c)
  }

  predicate Fresh(s: State, i: Timer)
    requires i < |s.schedules|
  {
    s.schedules[i].bump == Bumps(s, s.schedules[i].client)
  }

  /** Below the wrap an armed timer is in the map when its schedule is the latest, and stopped otherwise. */
  predicate Kept(s: State, i: Timer) {
    In(s, i, Armed) && Bumps(s, s.schedules[i].client) < TWO64 ==>
      var c := s.schedules[i].client;
      if Fresh(s, i) then c in s.fence.timers && s.fence.timers[c] == i else i in s.fence.stopped
  }

  predicate Outdated(s: State, i: Timer) {
    i in s.fence.stopped ==> i < |s.schedules| && !Fresh(s, i)
  }

  /** Two schedules of one client were made at different bumps. */
  predicate Apart(s: State, i: Timer, j: Timer) {
    i < j < |s.schedules| && s.schedules[i].client == s.schedules[j].client ==> s.schedules[i].bump != s.schedules[j].bump
  }

  ghost predicate TimersInv(s: State) {
    && s.fence.made == |s.schedules| && (forall c :: Latest(s, c))
    && (forall i :: Kept(s, i) && Outdated(s, i)) && (forall i, j :: Apart(s, i, j))
  }

  lemma MadeNext(s: State, step: Step)
    requires s.fence.made == |s.schedules|
    ensures Next(s, step).fence.made == |Next(s, step).schedules|
  {
    hide Epoch, Bumps;
  }

  lemma LatestNext(s: State, step: Step, c: Client)
    requires s.fence.made == |s.schedules| && Latest(s, c)
    ensures Latest(Next(s, step), c)
  {
    BumpsNext(s, step, c);
    hide Epoch, Bumps;
    match step
    case Schedules(d) => hide Cancel; if d == c { SchedulesMakes(s, c); }
    case _ =>
  }

  lemma ApartNext(s: State, step: Step, i: Timer, j: Timer)
    requires SchedulesCount(s) && Apart(s, i, j)
    ensures Apart(Next(s, step), i, j)
  {
    if i < j < |s.schedules| {
      assert s.schedules[i] in s.schedules && s.schedules[j] in s.schedules;
    } else if i < |s.schedules| {
      assert s.schedules[i] in s.schedules;
    }
  }

  lemma OutdatedNext(s: State, step: Step, i: Timer)
    requires SchedulesCount(s) && (forall c :: Latest(s, c)) && Outdated(s, i)
    ensures Outdated(Next(s, step), i)
  {
    hide Epoch;
    if i < |s.schedules| {
      assert s.schedules[i] in s.schedules;
    }
    if step.Schedules? || step.Cancels? || step.NotifiesConnect? {
      assert Latest(s, step.client);
    }
  }

  lemma KeptBumped(s: State, step: Step, i: Timer)
    requires SchedulesCount(s) && s.fence.made == |s.schedules| && Kept(s, i)
    requires step.Schedules? || step.Cancels? || step.NotifiesConnect?
    ensures Kept(Next(s, step), i)
  {
    hide Epoch;
    if i < |s.schedules| {
      assert s.schedules[i] in s.schedules;
    }
  }

  lemma KeptOtherwise(s: State, step: Step, i: Timer)
    requires Kept(s, i) && !step.Schedules? && !step.Cancels? && !step.NotifiesConnect?
    requires step.Applies? && Acts(s, step.timer) && In(s, i, Armed) && Bumps(s, s.schedules[i].client) < TWO64 ==>
               !Fresh(s, i) || s.schedules[i].client != s.schedules[step.timer].client
    ensures Kept(Next(s, step), i)
  {
    hide Epoch;
  }

  lemma KeptNext(s: State, step: Step, i: Timer)
    requires Inv(s) && TimersInv(s)
    ensures Kept(Next(s, step), i)
  {
    hide Next, Epoch, Outdated, Latest;
    assert Kept(s, i);
    if step.Schedules? || step.Cancels? || step.NotifiesConnect? {
      KeptBumped(s, step, i);
    } else {
      if step.Applies? && Acts(s, step.timer) && In(s, i, Armed) && Bumps(s, s.schedules[i].client) < TWO64 {
        CurrentByDistance(s, step.timer);
        assert Apart(s, i, step.timer) && Apart(s, step.timer, i);
      }
      KeptOtherwise(s, step, i);
    }
  }

  lemma InvCounts(s: State)
    requires Inv(s)
    ensures SchedulesCount(s)
  {
  }

  lemma TimersNext(s: State, step: Step)
    requires Inv(s) && TimersInv(s)
    ensures TimersInv(Next(s, step))
  {
    hide Next, Inv, Kept, Outdated, Apart, Latest;
    MadeNext(s, step);
    forall c ensures Latest(Next(s, step), c) {
      assert Latest(s, c);
      LatestNext(s, step, c);
    }
    InvCounts(s);
    forall i ensures Kept(Next(s, step), i) && Outdated(Next(s, step), i) {
      KeptNext(s, step, i);
      assert Outdated(s, i);
      OutdatedNext(s, step, i);
    }
    forall i, j ensures Apart(Next(s, step), i, j) {
      assert Apart(s, i, j);
      ApartNext(s, step, i, j);
    }
  }

  lemma {:induction false} RunTimers(s: State, steps: seq<Step>)
    requires Initial(s)
    ensures TimersInv(Run(s, steps))
  {
    InitialInv(s);
    if steps != [] {
      RunTimers(s, steps[..|steps| - 1]);
      RunInv(s, steps[..|steps| - 1]);
      TimersNext(Run(s, steps[..|steps| - 1]), steps[|steps| - 1]);
    }
  }

  /** Before the epoch wraps, a timer that has not fired is stopped exactly when its client was scheduled again or
      cancelled since; if not, it is the one that the next schedule or cancel of the client will stop. */
  lemma {:induction false} StoppedExactly(s: State, steps: seq<Step>, i: Timer)
    requires Initial(s) && In(Run(s, steps), i, Armed)
    requires Bumps(Run(s, steps), Run(s, steps).schedules[i].client) < TWO64
    ensures var e := Run(s, steps);
      var c := e.schedules[i].client;
      && (i in e.fence.stopped <==> e.schedules[i].bump < Bumps(e, c))
      && (i !in e.fence.stopped ==> c in e.fence.timers && e.fence.timers[c] == i)
  {
    hide Next;
    InitialInv(s);
    RunInv(s, steps);
    RunTimers(s, steps);
    var e := Run(s, steps);
    assert Kept(e, i) && Outdated(e, i) && e.schedules[i] in e.schedules;
  }

  // ---------- what an expiry can do ----------

  /** The schedules and cancels of a client in a run. */
  function Disturbances(s: State, steps: seq<Step>, c: Client): nat
    decreases |steps|
  {
    if steps == [] then 0
    else
      var front := steps[..|steps| - 1];
      Disturbances(s, front, c) + if Bumping(Run(s, front), steps[|steps| - 1], c) then 1 else 0
  }

  lemma {:induction false} DisturbancesAreCounted(s: State, steps: seq<Step>, c: Client)
    ensures Bumps(Run(s, steps), c) == Bumps(s, c) + Disturbances(s, steps, c)
  {
    hide Next, Bumps;
    if steps != [] {
      DisturbancesAreCounted(s, steps[..|steps| - 1], c);
      BumpsNext(Run(s, steps[..|steps| - 1]), steps[|steps| - 1], c);
    }
  }

  /** A schedule is the same but for its phase. */
  predicate Same(s: State, t: State, i: Timer) {
    && i < |s.schedules| && i < |t.schedules|
    && t.schedules[i].client == s.schedules[i].client
    && t.schedules[i].epoch == s.schedules[i].epoch && t.schedules[i].bump == s.schedules[i].bump
  }

  lemma ScheduleNext(s: State, step: Step, i: Timer)
    requires i < |s.schedules|
    ensures Same(s, Next(s, step), i)
  {
  }

  lemma {:induction false} ScheduleStays(s: State, steps: seq<Step>, i: Timer)
    requires i < |s.schedules|
    ensures Same(s, Run(s, steps), i)
  {
    hide Next;
    if steps != [] {
      ScheduleStays(s, steps[..|steps| - 1], i);
      ScheduleNext(Run(s, steps[..|steps| - 1]), steps[|steps| - 1], i);
    }
  }

  lemma AppliesWhenCurrent(s: State, i: Timer)
    ensures Next(s, Applies(i)).effects == if Acts(s, i) then s.effects + [i] else s.effects
  {
  }

  /** Equal remainders and a distance below the modulus leave only equality. */
  lemma SameRemainder(a: nat, d: nat)
    ensures (a + d) % TWO64 == a % TWO64 <==> d % TWO64 == 0
  {
  }

  /** Where a schedule is current is decided by the bumps since it was made. */
  lemma CurrentByDistance(s: State, i: Timer)
    requires Inv(s) && i < |s.schedules|
    ensures s.schedules[i].bump <= Bumps(s, s.schedules[i].client)
    ensures Current(s, i) <==> (Bumps(s, s.schedules[i].client) - s.schedules[i].bump) % TWO64 == 0
  {
    var sc := s.schedules[i];
    assert sc in s.schedules;
    assert Counted(s, sc.client);
    SameRemainder(sc.bump, Bumps(s, sc.client) - sc.bump);
  }

  lemma SchedulesMakes(s: State, c: Client)
    ensures var t := Next(s, Schedules(c)); var i := |s.schedules|;
      |t.schedules| == i + 1 && t.schedules[i].client == c && t.schedules[i].bump == Bumps(t, c)
  {
  }

  /** After any history `before`, a schedule that has come to its last section disconnects the client exactly when
      the schedules and cancels of that client since are a multiple of 2^64; below that many, when there were none. */
  lemma {:induction false} DisconnectsOnlyUndisturbed(s: State, before: seq<Step>, c: Client, between: seq<Step>)
    requires Initial(s)
    ensures var scheduled := Next(Run(s, before), Schedules(c));
      var i := |Run(s, before).schedules|;
      var e := Run(scheduled, between);
      var n := Disturbances(scheduled, between, c);
      && (Next(e, Applies(i)).effects == if In(e, i, SeenOffline) && n % TWO64 == 0 then e.effects + [i] else e.effects)
      && (n < TWO64 && Acts(e, i) ==> n == 0)
  {
    hide Next, Run, Inv, Bumps, Disturbances, Initial;
    InitialInv(s);
    RunInv(s, before);
    var b := Run(s, before);
    var scheduled := Next(b, Schedules(c));
    NextInv(b, Schedules(c));
    SchedulesMakes(b, c);
    RunInv(scheduled, between);
    var e := Run(scheduled, between);
    ScheduleStays(scheduled, between, |b.schedules|);
    DisturbancesAreCounted(scheduled, between, c);
    CurrentByDistance(e, |b.schedules|);
    AppliesWhenCurrent(e, |b.schedules|);
  }

  /** A schedule disconnects its client at most once. */
  lemma {:induction false} OneEffectEach(s: State, steps: seq<Step>, i: nat, j: nat)
    requires Initial(s) && i < |Run(s, steps).effects| && j < |Run(s, steps).effects|
    ensures Run(s, steps).effects[i] == Run(s, steps).effects[j] ==> i == j
  {
    InitialInv(s);
    RunInv(s, steps);
  }

  /** Before the epoch wraps, an expiry disconnects a client that is connected again only while the notification of
      its new session is still owed. */
  lemma {:induction false} ConnectedIsHitOnlyWhileOwed(s: State, steps: seq<Step>, i: Timer)
    requires Initial(s)
    requires var e := Run(s, steps); Acts(e, i) && Bumps(e, e.schedules[i].client) < TWO64
    ensures var e := Run(s, steps); e.schedules[i].client in e.connected ==> e.schedules[i].client in e.owed
  {
    InitialInv(s);
    RunInv(s, steps);
    HitIsOwed(Run(s, steps), i);
  }

  lemma HitIsOwed(e: State, i: Timer)
    requires Inv(e) && Acts(e, i) && Bumps(e, e.schedules[i].client) < TWO64
    ensures e.schedules[i].client in e.connected ==> e.schedules[i].client in e.owed
  {
    CurrentByDistance(e, i);
    assert e.schedules[i] in e.schedules;
  }

  /** It does happen: the new session registers after the hub was asked and before its notification cancels. */
  lemma ConnectedCanBeHit(s: State, c: Client)
    requires Initial(s)
    ensures var s1 := Next(Next(Next(Next(s, Schedules(c)), Fires(0)), ChecksEpoch(0)), AsksHub(0));
      var s2 := Next(s1, Connects(c));
      Acts(s2, 0) && c in s2.connected && Next(s2, Applies(0)).effects == [0]
  {
  }
}
