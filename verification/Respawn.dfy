/** The client's wait for a daemon: polling, reaping and respawning candidates with exponential
    backoff. Times are milliseconds on a monotonic clock. */
module Respawn {
  import opened Results

  const STARTUP_TIMEOUT: int := 15_000
  const POLL_INTERVAL: int := 100
  const MAX_BACKOFF: int := 2_000

  datatype StartupState = Ready | WaitForOwner | SpawnCandidate

  datatype Poll = Exited | Running | PollFailed

  /** What one turn of the loop sees of the world: three clock readings, the candidate's poll (used
      only when there is one), the daemon's state and whether a spawn would succeed. */
  datatype Turn = Turn(
    t0: int, poll: Poll, now: int, state: Option<StartupState>, spawnOk: bool, t2: int)

  datatype Outcome = Connected | Timeout | Failed | StillWaiting

  function Min(a: int, b: int): int {
    if a < b then a else b
  }

  /** The delay after the i-th failure (from 0). */
  function Delay(i: nat): (d: int)
    ensures POLL_INTERVAL <= d <= MAX_BACKOFF
  {
    if i == 0 then POLL_INTERVAL else Min(2 * Delay(i - 1), MAX_BACKOFF)
  }

  /** All delays before the k-th spawn (from 0). */
  function Backoff(k: nat): (d: int)
    ensures d >= 0
  {
    if k == 0 then 0 else Backoff(k - 1) + Delay(k - 1)
  }

  function Pow2(i: nat): (n: int)
    ensures n >= 1
  {
    if i == 0 then 1 else 2 * Pow2(i - 1)
  }

  /** The closed form of the doubling with a ceiling. */
  lemma {:induction false} DelayClosed(i: nat)
    ensures Delay(i) == Min(100 * Pow2(i), 2_000)
  {
    if i > 0 {
      DelayClosed(i - 1);
    }
  }

  /** Eleven delays add up to more than the startup timeout. */
  lemma ElevenDelays()
    ensures Backoff(11) == 15_100
  {
    assert Delay(1) == 200 && Delay(2) == 400 && Delay(3) == 800 && Delay(4) == 1_600;
    assert Delay(5) == Delay(6) == Delay(7) == 2_000;
    assert Delay(8) == Delay(9) == Delay(10) == 2_000;
    assert Backoff(4) == 1_500;
    assert Backoff(8) == 9_100;
  }

  class RespawnSchedule {
    var delay: int
    var nextSpawnAt: int
    ghost var failures: nat

    ghost predicate Valid()
      reads this
    {
      delay == Delay(failures)
    }

    constructor (now: int)
      ensures Valid() && failures == 0 && nextSpawnAt == now
    {
      delay := POLL_INTERVAL;
      nextSpawnAt := now;
      failures := 0;
    }

    /** The i-th failure puts the next spawn off by the i-th delay. */
    method CandidateFailed(now: int)
      requires Valid()
      modifies this
      ensures Valid() && failures == old(failures) + 1
      ensures nextSpawnAt == now + Delay(old(failures))
    {
      nextSpawnAt := now + delay;
      delay := Min(delay * 2, MAX_BACKOFF);
      failures := failures + 1;
    }

    predicate CanSpawn(now: int)
      reads this
    {
      now >= nextSpawnAt
    }

    method Update(state: StartupState, candidateExited: bool, now: int)
      requires Valid()
      modifies this
      ensures Valid()
      ensures if state != Ready && candidateExited
              then failures == old(failures) + 1 && nextSpawnAt == now + Delay(old(failures))
              else failures == old(failures) && nextSpawnAt == old(nextSpawnAt)
    {
      if state != Ready && candidateExited {
        CandidateFailed(now);
      }
    }
  }

  /** The clock never runs backwards, within a turn or between turns. */
  predicate Monotone(start: int, turns: seq<Turn>) {
    && (forall i | 0 <= i < |turns| :: start <= turns[i].t0 <= turns[i].now <= turns[i].t2)
    && (forall i | 0 < i < |turns| :: turns[i - 1].t2 <= turns[i].t0)
  }

  /** The clock readings of the spawns and of the reaps. There is never a second live candidate, each
      reap follows its spawn, and each respawn waits out a delay that starts at the reap before it. */
  predicate Throttled(start: int, spawns: seq<int>, reaps: seq<int>) {
    && |reaps| <= |spawns| <= |reaps| + 1
    && (forall k | 0 <= k < |reaps| :: spawns[k] <= reaps[k])
    && (spawns != [] ==> start <= spawns[0])
    && (forall k | 0 < k < |spawns| :: reaps[k - 1] + Delay(k - 1) <= spawns[k])
  }

  /** Only the last spawn can be as late as the deadline. */
  predicate BeforeDeadline(deadline: int, spawns: seq<int>) {
    forall k | 0 <= k < |spawns| - 1 :: spawns[k] < deadline
  }

  /** Where the schedule stands after the reaps so far. */
  function NextSpawnAt(start: int, reaps: seq<int>): int {
    if reaps == [] then start else reaps[|reaps| - 1] + Delay(|reaps| - 1)
  }

  lemma AddReap(start: int, spawns: seq<int>, reaps: seq<int>, now: int)
    requires Throttled(start, spawns, reaps) && |spawns| == |reaps| + 1 && spawns[|reaps|] <= now
    ensures Throttled(start, spawns, reaps + [now])
    ensures NextSpawnAt(start, reaps + [now]) == now + Delay(|reaps|)
  {
    hide Delay;
  }

  lemma ThrottledNone(start: int)
    ensures Throttled(start, [], []) && NextSpawnAt(start, []) == start
  {
  }

  lemma AddSpawn(start: int, spawns: seq<int>, reaps: seq<int>, now: int)
    requires Throttled(start, spawns, reaps) && |spawns| == |reaps| && NextSpawnAt(start, reaps) <= now
    ensures Throttled(start, spawns + [now], reaps)
  {
    hide Delay;
  }

  /** How far the call has come: is there an unreaped candidate, when were the spawns and the reaps,
      and how has it ended. */
  datatype Wait = Wait(candidate: bool, spawns: seq<int>, reaps: seq<int>, outcome: Outcome)

  /** One turn, with the schedule read off the reaps. */
  function Turned(start: int, deadline: int, w: Wait, turn: Turn): Wait {
    if w.outcome != StillWaiting then w
    else if turn.t0 >= deadline then w.(outcome := Timeout)
    else if w.candidate && turn.poll == PollFailed then w.(outcome := Failed)
    else
      var v := if w.candidate && turn.poll == Exited then w.(candidate := false, reaps := w.reaps + [turn.now]) else w;
      if turn.state == None then v.(outcome := Failed)
      else if turn.state == Some(Ready) then v.(outcome := Connected)
      else if turn.state == Some(SpawnCandidate) && !v.candidate && turn.now >= NextSpawnAt(start, v.reaps) then
        if !turn.spawnOk then v.(outcome := Failed)
        else v.(candidate := true, spawns := v.spawns + [turn.now], outcome := if turn.t2 >= deadline then Timeout else StillWaiting)
      else v.(outcome := if turn.t2 >= deadline then Timeout else StillWaiting)
  }

  function Waited(start: int, deadline: int, turns: seq<Turn>): Wait {
    if turns == [] then Wait(false, [], [], StillWaiting)
    else Turned(start, deadline, Waited(start, deadline, turns[..|turns| - 1]), turns[|turns| - 1])
  }

  lemma WaitedSnoc(start: int, deadline: int, turns: seq<Turn>, i: nat)
    requires i < |turns|
    ensures Waited(start, deadline, turns[..i + 1]) == Turned(start, deadline, Waited(start, deadline, turns[..i]), turns[i])
  {
    hide Turned;
    assert turns[..i + 1][..i] == turns[..i];
  }

  /** A call that has ended stays ended. */
  lemma {:induction false} Ended(start: int, deadline: int, turns: seq<Turn>, i: nat)
    requires i <= |turns| && Waited(start, deadline, turns[..i]).outcome != StillWaiting
    ensures Waited(start, deadline, turns) == Waited(start, deadline, turns[..i])
    decreases |turns| - i
  {
    hide Waited;
    if i == |turns| {
      assert turns[..i] == turns;
    } else {
      WaitedSnoc(start, deadline, turns, i);
      Ended(start, deadline, turns, i + 1);
    }
  }

  /** A turn that ends the call badly whatever else is going on, or would if there were a candidate to
      poll or to spawn. */
  predicate Broken(turn: Turn) {
    turn.poll == PollFailed || turn.state == None || !turn.spawnOk
  }

  method WaitForDaemon(start: int, deadline: int, turns: seq<Turn>)
    returns (r: Outcome, spawns: seq<int>, reaps: seq<int>)
    requires Monotone(start, turns)
    ensures var w := Waited(start, deadline, turns); r == w.outcome && spawns == w.spawns && reaps == w.reaps
    ensures Throttled(start, spawns, reaps) && BeforeDeadline(deadline, spawns)
    ensures (forall i | 0 <= i < |turns| :: turns[i].t0 == turns[i].now) ==>
      forall k | 0 <= k < |spawns| :: spawns[k] < deadline
    ensures r == Connected ==> exists i | 0 <= i < |turns| :: turns[i].state == Some(Ready)
    ensures r == Timeout ==> exists i | 0 <= i < |turns| :: turns[i].t2 >= deadline
    ensures r == Failed ==> exists i | 0 <= i < |turns| :: Broken(turns[i])
    ensures r == StillWaiting ==> forall i | 0 <= i < |turns| :: turns[i].t2 < deadline && turns[i].state != Some(Ready)
  {
    hide Throttled, NextSpawnAt, Delay, Waited;
    ThrottledNone(start);
    var schedule := new RespawnSchedule(start);
    spawns, reaps := [], [];
    var candidate := false;
    NoTurns(start, deadline, turns[..0]);
    for i := 0 to |turns|
      invariant Throttled(start, spawns, reaps)
      invariant |spawns| == |reaps| + if candidate then 1 else 0
      invariant schedule.Valid() && schedule.failures == |reaps|
      invariant !candidate ==> schedule.nextSpawnAt == NextSpawnAt(start, reaps)
      invariant forall k | 0 <= k < |spawns| :: spawns[k] < deadline
      invariant candidate ==> i > 0 && spawns[|reaps|] <= turns[i - 1].t2
      invariant forall j | 0 <= j < i :: turns[j].t2 < deadline && turns[j].state != Some(Ready)
      invariant Waited(start, deadline, turns[..i]) == Wait(candidate, spawns, reaps, StillWaiting)
    {
      var turn := turns[i];
      WaitedSnoc(start, deadline, turns, i);
      if Turned(start, deadline, Wait(candidate, spawns, reaps, StillWaiting), turn).outcome != StillWaiting {
        Ended(start, deadline, turns, i + 1);
      }
      if turn.t0 >= deadline {
        return Timeout, spawns, reaps;
      }
      var candidateExited := false;
      if candidate {
        if turn.poll == PollFailed {
          return Failed, spawns, reaps;
        }
        if turn.poll == Exited {
          candidate := false;
          candidateExited := true;
          AddReap(start, spawns, reaps, turn.now);
          reaps := reaps + [turn.now];
        }
      }
      if turn.state == None {
        return Failed, spawns, reaps;
      }
      schedule.Update(turn.state.value, candidateExited, turn.now);
      if turn.state.value == Ready {
        return Connected, spawns, reaps;
      }
      if turn.state.value == SpawnCandidate && !candidate && schedule.CanSpawn(turn.now) {
        if !turn.spawnOk {
          return Failed, spawns, reaps;
        }
        candidate := true;
        AddSpawn(start, spawns, reaps, turn.now);
        spawns := spawns + [turn.now];
      }
      if turn.t2 >= deadline {
        return Timeout, spawns, reaps;
      }
    }
    assert turns[..|turns|] == turns;
    r := StillWaiting;
  }

  lemma NoTurns(start: int, deadline: int, turns: seq<Turn>)
    requires turns == []
    ensures Waited(start, deadline, turns) == Wait(false, [], [], StillWaiting)
  {
  }

  // ----- candidates that keep dying are respawned in time

  /** Every turn asks for a candidate and finds the last one gone, within the deadline. */
  predicate Crashing(deadline: int, turns: seq<Turn>) {
    forall i | 0 <= i < |turns| ::
      && turns[i].t0 < deadline && turns[i].t2 < deadline
      && turns[i].poll == Exited && turns[i].state == Some(SpawnCandidate) && turns[i].spawnOk
  }

  /** Turns come at most `gap` apart. */
  predicate Paced(start: int, turns: seq<Turn>, gap: nat) {
    && (turns != [] ==> start <= turns[0].now <= start + gap)
    && (forall i | 0 < i < |turns| :: turns[i].now <= turns[i - 1].now + gap)
  }

  /** By when the k-th spawn (from 0) must have happened. */
  function Latest(start: int, gap: nat, k: nat): int {
    start + Backoff(k) + (2 * k + 1) * gap
  }

  lemma LatestStep(start: int, gap: nat, k: nat)
    ensures Latest(start, gap, 0) == start + gap
    ensures Latest(start, gap, k + 1) == Latest(start, gap, k) + Delay(k) + 2 * gap
    ensures Latest(start, gap, k + 1) > Latest(start, gap, k)
  {
    hide Delay, Backoff;
    BackoffStep(0);
    BackoffStep(k + 1);
  }

  lemma {:induction false} LatestGrows(start: int, gap: nat, k: nat, l: nat)
    requires k <= l
    ensures Latest(start, gap, k) <= Latest(start, gap, l)
  {
    if k < l {
      LatestGrows(start, gap, k, l - 1);
      LatestStep(start, gap, l - 1);
    }
  }

  /** Where a call with crashing candidates stands at clock reading `t`: the last turn spawned, or the
      next spawn is still ahead. */
  ghost predicate OnTime(start: int, gap: nat, w: Wait, t: int) {
    && w.outcome == StillWaiting
    && |w.spawns| == |w.reaps| + (if w.candidate then 1 else 0)
    && (forall k | 0 <= k < |w.spawns| :: w.spawns[k] <= Latest(start, gap, k))
    && (forall k | 0 <= k < |w.reaps| :: w.reaps[k] <= Latest(start, gap, k) + gap)
    && (if w.candidate then w.spawns[|w.reaps|] == t else t < NextSpawnAt(start, w.reaps))
  }

  /** The next spawn is due `gap` before the latest time for it. */
  lemma NextIsEarly(start: int, gap: nat, w: Wait, t: int)
    requires OnTime(start, gap, w, t) && !w.candidate
    ensures NextSpawnAt(start, w.reaps) + gap <= Latest(start, gap, |w.reaps|)
  {
    hide Delay, Latest;
    var n := |w.reaps|;
    if n == 0 {
      LatestStep(start, gap, 0);
    } else {
      LatestStep(start, gap, n - 1);
    }
  }

  lemma OnTimeStep(start: int, deadline: int, gap: nat, w: Wait, t: int, turn: Turn)
    requires OnTime(start, gap, w, t) && Crashing(deadline, [turn]) && t <= turn.now <= t + gap
    ensures OnTime(start, gap, Turned(start, deadline, w, turn), turn.now)
  {
    hide Latest, Delay;
    var n := |w.reaps|;
    assert [turn][0] == turn;
    if !w.candidate {
      NextIsEarly(start, gap, w, t);
    }
  }

  lemma {:induction false} StaysOnTime(start: int, deadline: int, turns: seq<Turn>, gap: nat)
    requires Monotone(start, turns) && Crashing(deadline, turns) && Paced(start, turns, gap) && turns != []
    ensures OnTime(start, gap, Waited(start, deadline, turns), turns[|turns| - 1].now)
  {
    hide OnTime;
    var n := |turns| - 1;
    var init, last := turns[..n], turns[n];
    assert [last][0] == last;
    if n == 0 {
      NoTurns(start, deadline, init);
      FirstOnTime(start, deadline, gap, last);
    } else {
      StaysOnTime(start, deadline, init, gap);
      assert init[n - 1] == turns[n - 1];
      OnTimeStep(start, deadline, gap, Waited(start, deadline, init), turns[n - 1].now, last);
    }
  }

  lemma FirstOnTime(start: int, deadline: int, gap: nat, turn: Turn)
    requires Crashing(deadline, [turn]) && start <= turn.now <= start + gap
    ensures OnTime(start, gap, Turned(start, deadline, Wait(false, [], [], StillWaiting), turn), turn.now)
  {
    hide Latest;
    assert [turn][0] == turn;
    LatestStep(start, gap, 0);
  }

  /** The other half of the throttle: with candidates that die at once and turns at most `gap` apart, the
      k-th spawn happens no later than the start, the first k delays and 2k + 1 gaps together. */
  lemma RespawnsInTime(start: int, deadline: int, turns: seq<Turn>, gap: nat, k: nat)
    requires Monotone(start, turns) && Crashing(deadline, turns) && Paced(start, turns, gap) && turns != []
    requires turns[|turns| - 1].now >= start + Backoff(k) + (2 * k + 1) * gap
    ensures var spawns := Waited(start, deadline, turns).spawns;
      k < |spawns| && spawns[k] <= start + Backoff(k) + (2 * k + 1) * gap
  {
    hide Waited, Backoff, Delay;
    StaysOnTime(start, deadline, turns, gap);
    var w, t := Waited(start, deadline, turns), turns[|turns| - 1].now;
    assert t >= Latest(start, gap, k);
    if |w.spawns| <= k {
      LatestGrows(start, gap, |w.spawns|, k);
      if w.candidate {
        LatestStep(start, gap, |w.reaps|);
      } else {
        NextIsEarly(start, gap, w, t);
      }
    }
    assert w.spawns[k] <= Latest(start, gap, k);
  }

  lemma BackoffStep(k: nat)
    ensures Backoff(k) == if k == 0 then 0 else Backoff(k - 1) + Delay(k - 1)
  {
  }

  /** The k-th spawn is no earlier than the start plus the first k delays. */
  lemma {:induction false} SpawnTimes(start: int, spawns: seq<int>, reaps: seq<int>, k: nat)
    requires Throttled(start, spawns, reaps) && k < |spawns|
    ensures start + Backoff(k) <= spawns[k]
  {
    hide Backoff, Delay;
    BackoffStep(k);
    if k > 0 {
      SpawnTimes(start, spawns, reaps, k - 1);
      assert spawns[k - 1] <= reaps[k - 1];
    }
  }

  /** A call with the fifteen-second deadline spawns at most twelve candidates, and at most eleven when
      no spawn is as late as the deadline, as when the clock is read once per turn. */
  lemma SpawnBound(start: int, deadline: int, spawns: seq<int>, reaps: seq<int>)
    requires Throttled(start, spawns, reaps) && BeforeDeadline(deadline, spawns)
    requires deadline <= start + STARTUP_TIMEOUT
    ensures |spawns| <= 12
    ensures (forall k | 0 <= k < |spawns| :: spawns[k] < deadline) ==> |spawns| <= 11
  {
    ElevenDelays();
    if |spawns| > 11 {
      SpawnTimes(start, spawns, reaps, 11);
    }
  }
}
