/** The fixed-window event limiter (server/tunnel/traffic_events.go and
    server/relay/broker_rejections.go share the algorithm, with limits 50 and 20).

    Time is an integer number of nanoseconds; the zero time of an unused window is `None`. A call reads the
    clock before it takes the lock, so calls may enter the lock in another order than that of their readings. */
module EventLimiter {

  import opened Options

  const SECOND: int := 1_000_000_000

  datatype State = State(window: Option<int>, count: nat)

  const FRESH := State(None, 0)

  /** The window that a call at time `now` is counted in. */
  function Rolled(s: State, now: int): State {
    if s.window.None? || now - s.window.value >= SECOND then State(Some(now), 0) else s
  }

  function Allowed(s: State, limit: nat, now: int): bool {
    Rolled(s, now).count < limit
  }

  function After(s: State, limit: nat, now: int): State {
    var r := Rolled(s, now);
    if r.count < limit then r.(count := r.count + 1) else r
  }

  class Limiter {
    var window: Option<int>
    var count: nat
    const maxRate: nat

    constructor (maxRate: nat)
      ensures this.maxRate == maxRate && View() == FRESH
    {
      this.maxRate, window, count := maxRate, None, 0;
    }

    function View(): State
      reads this
    {
      State(window, count)
    }

    /** The part of a call under the lock; `now` was read before. */
    method Allow(now: int) returns (ok: bool)
      modifies this
      ensures ok == Allowed(old(View()), maxRate, now)
      ensures View() == After(old(View()), maxRate, now)
      ensures var rolls := old(window).None? || now - old(window).value >= 1_000_000_000;
              var before := if rolls then 0 else old(count);
              && window == (if rolls then Some(now) else old(window))
              && ok == (before < maxRate) && count == if ok then before + 1 else before
    {
      if window.None? || now - window.value >= SECOND {
        window := Some(now);
        count := 0;
      }
      if count >= maxRate {
        return false;
      }
      count := count + 1;
      return true;
    }
  }

  // ---------- runs, in the order in which calls enter the lock ----------

  function Run(s: State, limit: nat, times: seq<int>): State {
    if times == [] then s else After(Run(s, limit, times[..|times| - 1]), limit, times[|times| - 1])
  }

  /** How many of `n` calls with one reading belong to the closed second that begins at `from`. */
  function Within(now: int, from: int, n: nat): nat {
    if from <= now <= from + SECOND then n else 0
  }

  /** How many of the calls with a reading in that second are let through; `times` are the readings of all calls. */
  function Admitted(limit: nat, times: seq<int>, from: int): nat {
    if times == [] then 0
    else
      var before, now := times[..|times| - 1], times[|times| - 1];
      Admitted(limit, before, from) + if Allowed(Run(FRESH, limit, before), limit, now) then Within(now, from, 1) else 0
  }

  /** No call is overtaken by more than `d`: whoever enters before it has a reading at most `d` later. */
  ghost predicate OvertakenAtMost(times: seq<int>, d: nat) {
    forall i, j :: 0 <= i < j < |times| ==> times[i] - times[j] <= d
  }

  ghost predicate Nondecreasing(times: seq<int>) {
    forall i, j :: 0 <= i <= j < |times| ==> times[i] <= times[j]
  }

  /** The most that an interval of one second lets through when no call is overtaken by more than `d`: two windows
      and one call less than the limit for each further window that still receives a reading from the interval. */
  function Bound(limit: nat, d: nat): nat {
    if limit == 0 then 0
    else
      var aligned := 2 * limit + (limit - 1) * (d / SECOND);
      var shifted := limit + (limit - 1) * (1 + (d + SECOND - 1) / SECOND);
      if aligned < shifted then shifted else aligned
  }

  // ---------- the bound holds ----------

  /** The most that the interval from 0 to one second lets through before a window later than `y` opens. */
  function Cap(limit: nat, y: int): nat
    requires limit > 0
    decreases y + SECOND
  {
    if y <= -SECOND then 0
    else if y < 0 then limit - 1
    else if y == 0 then limit
    else if y < SECOND then 2 * limit - 1
    else if y == SECOND then 2 * limit
    else
      var more := Cap(limit, y - SECOND) + limit - 1;
      if more < 2 * limit then 2 * limit else more
  }

  /** The same while the window that opened at `y` has admitted `count` calls. */
  function CapNow(limit: nat, y: int, count: int): int
    requires limit > 0
  {
    if y <= -SECOND then 0 else Cap(limit, y - SECOND) + count - if 0 <= y <= SECOND then 0 else 1
  }

  lemma {:induction false} CapGrows(limit: nat, y: int, z: int)
    requires limit > 0 && y <= z
    ensures Cap(limit, y) <= Cap(limit, z)
    decreases z + SECOND
  {
    if z > SECOND && y > SECOND {
      CapGrows(limit, y - SECOND, z - SECOND);
    }
  }

  lemma FullWindow(limit: nat, y: int, count: nat)
    requires limit > 0 && count <= limit
    ensures CapNow(limit, y, count) <= Cap(limit, y)
  {
  }

  lemma OneMoreTime(m: nat, x: nat)
    ensures m * (x + 1) == m * x + m
  {
  }

  lemma BoundGrows(limit: nat, d: nat)
    requires limit > 0
    ensures Bound(limit, d) >= 2 * limit && Bound(limit, d + SECOND) == Bound(limit, d) + limit - 1
  {
    var q, r := d / SECOND, (d + SECOND - 1) / SECOND;
    assert (d + SECOND) / SECOND == q + 1 && (d + SECOND + SECOND - 1) / SECOND == r + 1;
    OneMoreTime(limit - 1, q);
    OneMoreTime(limit - 1, 1 + r);
  }

  lemma {:induction false} CapIsBound(limit: nat, d: nat)
    requires limit > 0
    ensures Cap(limit, SECOND + d) == Bound(limit, d)
  {
    if d >= SECOND {
      CapIsBound(limit, d - SECOND);
      BoundGrows(limit, d - SECOND);
    } else {
      assert d / SECOND == 0 && (d + SECOND - 1) / SECOND == if d == 0 then 0 else 1;
      assert (limit - 1) * 0 == 0;
      OneMoreTime(limit - 1, 0);
      OneMoreTime(limit - 1, 1);
    }
  }

  lemma {:induction false} WindowFacts(limit: nat, times: seq<int>)
    requires limit > 0
    ensures var s := Run(FRESH, limit, times);
            && s.count <= limit
            && (times == [] <==> s.window.None?)
            && (times != [] ==> s.window.value in times && s.count > 0)
  {
    if times != [] {
      WindowFacts(limit, times[..|times| - 1]);
    }
  }

  /** No reading of a window is more than `d` before the call that opened it. */
  lemma ReadingsOfTheWindow(limit: nat, times: seq<int>, d: nat)
    requires limit > 0 && OvertakenAtMost(times, d) && |times| > 1
    ensures Run(FRESH, limit, times[..|times| - 1]).window.Some?
    ensures Run(FRESH, limit, times[..|times| - 1]).window.value - times[|times| - 1] <= d
  {
    var before := times[..|times| - 1];
    WindowFacts(limit, before);
    var w := Run(FRESH, limit, before).window.value;
    var i :| 0 <= i < |before| && before[i] == w;
    assert times[i] == w;
  }

  /** One call, given what was let through before it. */
  lemma OneMoreAdmitted(limit: nat, s: State, now: int, d: nat, from: int, a: nat)
    requires limit > 0 && s.count <= limit && (s.window.Some? ==> s.count > 0 && s.window.value - now <= d)
    requires a <= Cap(limit, SECOND + d) && (s.window.None? ==> a == 0)
    requires s.window.Some? && s.window.value - from <= SECOND + d ==> a <= CapNow(limit, s.window.value - from, s.count)
    ensures var t := After(s, limit, now);
            var b := a + if Allowed(s, limit, now) then Within(now, from, 1) else 0;
            && b <= Cap(limit, SECOND + d)
            && (t.window.value - from <= SECOND + d ==> b <= CapNow(limit, t.window.value - from, t.count))
  {
    var t := After(s, limit, now);
    var y := t.window.value - from;
    if s.window.Some? && s.window.value != t.window.value {
      FullWindow(limit, s.window.value - from, s.count);
      CapGrows(limit, s.window.value - from, y - SECOND);
    }
    if y <= SECOND + d {
      FullWindow(limit, y, t.count);
      CapGrows(limit, y, SECOND + d);
    }
  }

  lemma {:induction false} AdmittedSoFar(limit: nat, times: seq<int>, d: nat, from: int)
    requires limit > 0 && OvertakenAtMost(times, d)
    ensures var s := Run(FRESH, limit, times);
            var a := Admitted(limit, times, from);
            && a <= Cap(limit, SECOND + d) && (times == [] ==> a == 0)
            && (times != [] ==> s.window.Some?)
            && (times != [] && s.window.value - from <= SECOND + d ==> a <= CapNow(limit, s.window.value - from, s.count))
  {
    if times != [] {
      var before, now := times[..|times| - 1], times[|times| - 1];
      AdmittedSoFar(limit, before, d, from);
      WindowFacts(limit, before);
      if |times| > 1 {
        ReadingsOfTheWindow(limit, times, d);
      }
      OneMoreAdmitted(limit, Run(FRESH, limit, before), now, d, from, Admitted(limit, before, from));
    }
  }

  lemma {:induction false} NoneWithoutLimit(times: seq<int>, from: int)
    ensures Admitted(0, times, from) == 0
  {
    if times != [] {
      NoneWithoutLimit(times[..|times| - 1], from);
      assert Run(FRESH, 0, times[..|times| - 1]).count >= 0;
    }
  }

  /** In whatever order the calls enter, any closed one-second interval lets through at most the bound for the
      longest time by which a call is overtaken. */
  lemma AdmittedAtMost(limit: nat, times: seq<int>, d: nat, from: int)
    requires OvertakenAtMost(times, d)
    ensures Admitted(limit, times, from) <= Bound(limit, d)
  {
    if limit == 0 {
      NoneWithoutLimit(times, from);
    } else {
      AdmittedSoFar(limit, times, d, from);
      CapIsBound(limit, d);
    }
  }

  /** When the calls enter in the order of their readings, that is twice the limit. */
  lemma AtMostTwiceTheLimit(limit: nat, times: seq<int>, from: int)
    requires Nondecreasing(times)
    ensures Admitted(limit, times, from) <= 2 * limit
  {
    AdmittedAtMost(limit, times, 0, from);
    assert (limit - 1) * 0 == 0 && (limit - 1) * 1 == limit - 1;
  }

  // ---------- the bound is reached ----------

  /** A call that opens a window, then `n` calls with one reading. */
  function Block(open: int, n: nat, late: int): (r: seq<int>)
    ensures |r| == n + 1 && r[0] == open && forall i :: 1 <= i <= n ==> r[i] == late
  {
    [open] + seq(n, _ => late)
  }

  lemma OneMoreCall(limit: nat, before: seq<int>, now: int, from: int)
    ensures var s := Run(FRESH, limit, before);
            && Run(FRESH, limit, before + [now]) == After(s, limit, now)
            && Admitted(limit, before + [now], from)
               == Admitted(limit, before, from) + if Allowed(s, limit, now) then Within(now, from, 1) else 0
  {
    assert (before + [now])[..|before|] == before;
  }

  lemma {:induction false} BlockFills(limit: nat, before: seq<int>, open: int, n: nat, late: int, from: int)
    requires n < limit && late - open < SECOND
    requires var s := Run(FRESH, limit, before); s.window.None? || open - s.window.value >= SECOND
    ensures Run(FRESH, limit, before + Block(open, n, late)) == State(Some(open), n + 1)
    ensures Admitted(limit, before + Block(open, n, late), from)
            == Admitted(limit, before, from) + Within(open, from, 1) + Within(late, from, n)
  {
    hide Run, Admitted;
    if n == 0 {
      assert Block(open, 0, late) == [open];
      OneMoreCall(limit, before, open, from);
    } else {
      BlockFills(limit, before, open, n - 1, late, from);
      OneMoreCall(limit, before + Block(open, n - 1, late), late, from);
      assert before + Block(open, n, late) == before + Block(open, n - 1, late) + [late];
    }
  }

  /** A run that ends with a full window and has let `admitted` calls of the interval through. */
  ghost predicate Filled(limit: nat, times: seq<int>, d: nat, from: int, window: int, admitted: nat) {
    && OvertakenAtMost(times, d)
    && Run(FRESH, limit, times) == State(Some(window), limit)
    && AllBefore(times, window + SECOND)
    && Admitted(limit, times, from) == admitted
  }

  ghost predicate AllBefore(times: seq<int>, end: int) {
    forall i :: 0 <= i < |times| ==> times[i] < end
  }

  lemma BlockOvertakes(times: seq<int>, d: nat, open: int, n: nat, late: int)
    requires OvertakenAtMost(times, d) && AllBefore(times, open + 1) && open - late <= d && late - open < SECOND
    ensures OvertakenAtMost(times + Block(open, n, late), d) && AllBefore(times + Block(open, n, late), open + SECOND)
  {
  }

  lemma FirstBlock(limit: nat, d: nat, from: int, open: int, late: int)
    requires limit > 0 && open - late <= d && late - open < SECOND
    ensures Filled(limit, Block(open, limit - 1, late), d, from, open,
                   Within(open, from, 1) + Within(late, from, limit - 1))
  {
    BlockFills(limit, [], open, limit - 1, late, from);
    BlockOvertakes([], d, open, limit - 1, late);
    assert [] + Block(open, limit - 1, late) == Block(open, limit - 1, late);
  }

  lemma AddBlock(limit: nat, times: seq<int>, d: nat, from: int, window: int, admitted: nat, open: int, late: int)
    requires limit > 0 && Filled(limit, times, d, from, window, admitted)
    requires open >= window + SECOND && open - late <= d && late - open < SECOND
    ensures Filled(limit, times + Block(open, limit - 1, late), d, from, open,
                   admitted + Within(open, from, 1) + Within(late, from, limit - 1))
  {
    hide Run, Admitted, Block, OvertakenAtMost;
    BlockFills(limit, times, open, limit - 1, late, from);
    BlockOvertakes(times, d, open, limit - 1, late);
  }

  /** `k` more windows, each with all but its first reading from the end of the interval. */
  lemma {:induction false} AddTail(limit: nat, times: seq<int>, d: nat, from: int, window: int, admitted: nat, k: nat)
      returns (longer: seq<int>)
    requires limit > 0 && window > from && Filled(limit, times, d, from, window, admitted)
    requires window + k * SECOND - (from + SECOND) <= d
    ensures Filled(limit, longer, d, from, window + k * SECOND, admitted + (limit - 1) * k)
  {
    hide Filled, Block;
    if k == 0 {
      longer := times;
    } else {
      longer := AddTail(limit, times, d, from, window, admitted, k - 1);
      var open, before := window + k * SECOND, window + (k - 1) * SECOND;
      AddBlock(limit, longer, d, from, before, admitted + (limit - 1) * (k - 1), open, from + SECOND);
      longer := longer + Block(open, limit - 1, from + SECOND);
      OneMoreTime(limit - 1, k - 1);
    }
  }

  lemma FilledSays(limit: nat, times: seq<int>, d: nat, from: int, window: int, admitted: nat)
    requires Filled(limit, times, d, from, window, admitted)
    ensures OvertakenAtMost(times, d) && Admitted(limit, times, from) == admitted
  {
  }

  /** Windows that open at both ends of the interval, and later ones. */
  lemma AlignedRun(limit: nat, d: nat) returns (times: seq<int>)
    requires limit > 0
    ensures OvertakenAtMost(times, d) && Admitted(limit, times, 0) == 2 * limit + (limit - 1) * (d / SECOND)
  {
    hide Filled, Block, OvertakenAtMost, Admitted;
    var k := d / SECOND;
    FirstBlock(limit, d, 0, 0, 0);
    times := Block(0, limit - 1, 0);
    AddBlock(limit, times, d, 0, 0, limit, SECOND, SECOND);
    times := times + Block(SECOND, limit - 1, SECOND);
    times := AddTail(limit, times, d, 0, SECOND, 2 * limit, k);
    FilledSays(limit, times, d, 0, SECOND + k * SECOND, 2 * limit + (limit - 1) * k);
  }

  /** A window that opens just after the interval begins, one before it and later ones. */
  lemma ShiftedRun(limit: nat, d: nat) returns (times: seq<int>)
    requires limit > 0
    ensures OvertakenAtMost(times, d)
    ensures Admitted(limit, times, 0) == limit + (limit - 1) * (1 + (d + SECOND - 1) / SECOND)
  {
    hide Filled, Block, OvertakenAtMost, Admitted;
    var k := (d + SECOND - 1) / SECOND;
    FirstBlock(limit, d, 0, 1 - SECOND, 0);
    times := Block(1 - SECOND, limit - 1, 0);
    AddBlock(limit, times, d, 0, 1 - SECOND, limit - 1, 1, 1);
    times := times + Block(1, limit - 1, 1);
    times := AddTail(limit, times, d, 0, 1, 2 * limit - 1, k);
    FilledSays(limit, times, d, 0, 1 + k * SECOND, 2 * limit - 1 + (limit - 1) * k);
    OneMoreTime(limit - 1, k);
  }

  /** The bound is exact: for every limit and every overtaking there are readings that reach it. */
  lemma BoundIsReached(limit: nat, d: nat) returns (times: seq<int>)
    ensures OvertakenAtMost(times, d) && Admitted(limit, times, 0) == Bound(limit, d)
  {
    if limit == 0 {
      times := [];
    } else {
      var aligned := AlignedRun(limit, d);
      var shifted := ShiftedRun(limit, d);
      times := if Admitted(limit, aligned, 0) < Admitted(limit, shifted, 0) then shifted else aligned;
    }
  }

  lemma TwiceTheLimitIsReached(limit: nat)
    ensures exists times :: Nondecreasing(times) && Admitted(limit, times, 0) == 2 * limit
  {
    var times := BoundIsReached(limit, 0);
    assert (limit - 1) * 0 == 0 && (limit - 1) * 1 == limit - 1;
    assert Nondecreasing(times) && Admitted(limit, times, 0) == 2 * limit;
  }

  lemma TwiceByArithmetic(limit: nat, d: nat)
    ensures Bound(limit, d) <= 2 * limit <==> limit <= 1 || d == 0 || (limit == 2 && d < SECOND)
  {
    if limit > 0 {
      var q, r := d / SECOND, (d + SECOND - 1) / SECOND;
      assert r == 0 <==> d == 0;
      assert q == 0 <==> d < SECOND;
      assert d < SECOND ==> r <= 1;
      if limit == 1 {
        assert 0 * q == 0 && 0 * (1 + r) == 0;
      } else {
        Grows(limit - 1, 1 + r, 1);
        Grows(limit - 1, q, 0);
        if r > 0 {
          Grows(limit - 1, 1 + r, 2);
        }
        if q > 0 {
          Grows(limit - 1, q, 1);
        }
      }
    }
  }

  lemma Grows(m: nat, x: nat, y: nat)
    requires x >= y
    ensures m * x >= m * y
  {
  }

  /** Twice the limit is kept by all runs in which no call is overtaken by more than `d` exactly when nothing is
      overtaken, or the limit is at most 1, or it is 2 and `d` is below a second. */
  lemma TwiceHoldsExactly(limit: nat, d: nat)
    ensures (forall times, from :: OvertakenAtMost(times, d) ==> Admitted(limit, times, from) <= 2 * limit)
            <==> limit <= 1 || d == 0 || (limit == 2 && d < SECOND)
  {
    TwiceByArithmetic(limit, d);
    var times := BoundIsReached(limit, d);
    if Bound(limit, d) <= 2 * limit {
      forall ts, from | OvertakenAtMost(ts, d) ensures Admitted(limit, ts, from) <= 2 * limit {
        AdmittedAtMost(limit, ts, d, from);
      }
    } else {
      assert OvertakenAtMost(times, d) && Admitted(limit, times, 0) > 2 * limit;
    }
  }

  /** Below a second the limits of the two call sites let 148 and 58 calls through, not 100 and 40. */
  lemma BoundsInUse(d: nat)
    requires 0 < d < SECOND
    ensures Bound(50, d) == 148 && Bound(20, d) == 58
  {
  }

  /** Nine calls, of which the last two are overtaken by one nanosecond, with limit 3: seven pass in one second. */
  lemma OvertakenByOne()
    ensures var times := [1 - SECOND, 0, 0, 1, 1, 1, SECOND + 1, SECOND, SECOND];
            OvertakenAtMost(times, 1) && Admitted(3, times, 0) == 7
  {
    hide Filled, Run, Admitted, OvertakenAtMost;
    FirstBlock(3, 1, 0, 1 - SECOND, 0);
    assert Block(1 - SECOND, 2, 0) == [1 - SECOND, 0, 0];
    AddBlock(3, [1 - SECOND, 0, 0], 1, 0, 1 - SECOND, 2, 1, 1);
    assert [1 - SECOND, 0, 0] + Block(1, 2, 1) == [1 - SECOND, 0, 0, 1, 1, 1];
    AddBlock(3, [1 - SECOND, 0, 0, 1, 1, 1], 1, 0, 1, 5, SECOND + 1, SECOND);
    assert [1 - SECOND, 0, 0, 1, 1, 1] + Block(SECOND + 1, 2, SECOND)
           == [1 - SECOND, 0, 0, 1, 1, 1, SECOND + 1, SECOND, SECOND];
    FilledSays(3, [1 - SECOND, 0, 0, 1, 1, 1, SECOND + 1, SECOND, SECOND], 1, 0, SECOND + 1, 7);
  }

  // ---------- calls as two steps ----------

  /** The clock never goes back. `waiting` holds the readings of the calls that have not entered the lock. */
  datatype Shared = Shared(clock: int, waiting: multiset<int>, limiter: State, entered: seq<int>)

  datatype Step = Tick(elapsed: nat) | ReadClock | Enter(reading: int)

  predicate Initial(s: Shared) {
    s.waiting == multiset{} && s.limiter == FRESH && s.entered == []
  }

  function Next(s: Shared, limit: nat, step: Step): Shared {
    match step
    case Tick(elapsed) => s.(clock := s.clock + elapsed)
    case ReadClock => s.(waiting := s.waiting + multiset{s.clock})
    case Enter(reading) =>
      if reading in s.waiting then
        s.(waiting := s.waiting - multiset{reading}, limiter := After(s.limiter, limit, reading),
           entered := s.entered + [reading])
      else s
  }

  function RunShared(s: Shared, limit: nat, steps: seq<Step>): Shared
    decreases |steps|
  {
    if steps == [] then s else Next(RunShared(s, limit, steps[..|steps| - 1]), limit, steps[|steps| - 1])
  }

  lemma {:induction false} EnteredIsTheRun(s: Shared, limit: nat, steps: seq<Step>)
    requires Initial(s)
    ensures var e := RunShared(s, limit, steps); e.limiter == Run(FRESH, limit, e.entered)
  {
    if steps != [] {
      EnteredIsTheRun(s, limit, steps[..|steps| - 1]);
      var e, last := RunShared(s, limit, steps[..|steps| - 1]), steps[|steps| - 1];
      if last.Enter? && last.reading in e.waiting {
        OneMoreCall(limit, e.entered, last.reading, 0);
      }
    }
  }

  /** Over every interleaving of readings and entries of a shared limiter. */
  lemma {:induction false} SharedLimiterIsBounded(s: Shared, limit: nat, steps: seq<Step>, d: nat, from: int)
    requires Initial(s) && OvertakenAtMost(RunShared(s, limit, steps).entered, d)
    ensures var e := RunShared(s, limit, steps);
            && e.limiter == Run(FRESH, limit, e.entered)
            && Admitted(limit, e.entered, from) <= Bound(limit, d)
  {
    EnteredIsTheRun(s, limit, steps);
    AdmittedAtMost(limit, RunShared(s, limit, steps).entered, d, from);
  }

  /** Each call enters at most `d` after it read the clock. */
  ghost predicate Prompt(s: Shared, limit: nat, steps: seq<Step>, d: nat)
    decreases |steps|
  {
    steps != [] ==>
      var front, last := steps[..|steps| - 1], steps[|steps| - 1];
      && Prompt(s, limit, front, d)
      && (last.Enter? && last.reading in RunShared(s, limit, front).waiting ==>
            RunShared(s, limit, front).clock - last.reading <= d)
  }

  lemma {:induction false} PromptOvertakesLittle(s: Shared, limit: nat, steps: seq<Step>, d: nat)
    requires Initial(s) && Prompt(s, limit, steps, d)
    ensures var e := RunShared(s, limit, steps);
            && OvertakenAtMost(e.entered, d)
            && (forall i :: 0 <= i < |e.entered| ==> e.entered[i] <= e.clock)
            && (forall r <- e.waiting :: r <= e.clock)
  {
    if steps != [] {
      PromptOvertakesLittle(s, limit, steps[..|steps| - 1], d);
    }
  }

  lemma RunOneMore(s: Shared, limit: nat, steps: seq<Step>, step: Step)
    ensures RunShared(s, limit, steps + [step]) == Next(RunShared(s, limit, steps), limit, step)
  {
    assert (steps + [step])[..|steps|] == steps;
  }

  lemma {:induction false} Greatest(times: seq<int>) returns (m: nat)
    requires times != []
    ensures m < |times| && forall i :: 0 <= i < |times| ==> times[i] <= times[m]
  {
    m := |times| - 1;
    if |times| > 1 {
      var k := Greatest(times[..|times| - 1]);
      if times[k] > times[m] {
        m := k;
      }
    }
  }

  /** Any readings can be waiting together. */
  lemma {:induction false} ReadAll(limit: nat, times: seq<int>) returns (start: Shared, steps: seq<Step>)
    ensures Initial(start)
    ensures var e := RunShared(start, limit, steps);
            e.waiting == multiset(times) && e.entered == [] && (times != [] ==> e.clock in times)
    decreases |times|
  {
    if times == [] {
      start, steps := Shared(0, multiset{}, FRESH, []), [];
    } else {
      var m := Greatest(times);
      var rest := times[..m] + times[m + 1..];
      assert times == times[..m] + [times[m]] + times[m + 1..];
      start, steps := ReadAll(limit, rest);
      if rest == [] {
        start, steps := Shared(times[m], multiset{}, FRESH, []), [];
      }
      var clock := RunShared(start, limit, steps).clock;
      RunOneMore(start, limit, steps, Tick(times[m] - clock));
      steps := steps + [Tick(times[m] - clock)];
      RunOneMore(start, limit, steps, ReadClock);
      steps := steps + [ReadClock];
    }
  }

  lemma {:induction false} EnterSome(start: Shared, limit: nat, ticks: seq<Step>, times: seq<int>, n: nat)
      returns (steps: seq<Step>)
    requires n <= |times|
    requires var e := RunShared(start, limit, ticks); e.waiting == multiset(times) && e.entered == []
    ensures var e := RunShared(start, limit, steps); e.waiting == multiset(times[n..]) && e.entered == times[..n]
  {
    if n == 0 {
      steps := ticks;
      assert times[0..] == times;
    } else {
      steps := EnterSome(start, limit, ticks, times, n - 1);
      assert times[n - 1..] == [times[n - 1]] + times[n..];
      assert times[..n] == times[..n - 1] + [times[n - 1]];
      RunOneMore(start, limit, steps, Enter(times[n - 1]));
      steps := steps + [Enter(times[n - 1])];
    }
  }

  /** Every order of readings happens in some run: the clock alone promises nothing about the order of entering. */
  lemma AnyOrderHappens(limit: nat, times: seq<int>) returns (start: Shared, steps: seq<Step>)
    ensures Initial(start) && RunShared(start, limit, steps).entered == times
  {
    var ticks;
    start, ticks := ReadAll(limit, times);
    steps := EnterSome(start, limit, ticks, times, |times|);
    assert times[..|times|] == times;
  }

  /** If each call enters at most `d` after its reading, the bound for `d` holds. */
  lemma {:induction false} PromptCallsAreBounded(s: Shared, limit: nat, steps: seq<Step>, d: nat, from: int)
    requires Initial(s) && Prompt(s, limit, steps, d)
    ensures Admitted(limit, RunShared(s, limit, steps).entered, from) <= Bound(limit, d)
  {
    PromptOvertakesLittle(s, limit, steps, d);
    AdmittedAtMost(limit, RunShared(s, limit, steps).entered, d, from);
  }

  /** A shared limiter reaches the bound, with a clock that never goes back. */
  lemma SharedBoundIsReached(limit: nat, d: nat) returns (start: Shared, steps: seq<Step>)
    ensures Initial(start)
    ensures var e := RunShared(start, limit, steps);
            OvertakenAtMost(e.entered, d) && Admitted(limit, e.entered, 0) == Bound(limit, d)
  {
    var times := BoundIsReached(limit, d);
    start, steps := AnyOrderHappens(limit, times);
  }
}
