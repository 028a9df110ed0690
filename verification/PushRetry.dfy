/** `push_with_retry`, run against whatever everyone else does in between, and a run in which it reports
    success although the caller's commit is not on the remote. */
module PushRetry {
  import opened Results
  import opened PushProtocol

  const MAX_PUSH_RETRIES: nat := 3

  datatype PushResult = Pushed | PushError | FetchError | RebaseError | StillConflicting

  /** What the network and everyone else do around one attempt: steps before the push, whether the
      push fails for another reason (and whether the remote took it all the same), steps before the
      fetch, whether the fetch fails, steps before the rebase. */
  datatype Attempt = Attempt(
    beforePush: seq<Step>, pushFails: bool, unheard: bool, beforeFetch: seq<Step>, fetchFails: bool,
    beforeRebase: seq<Step>)

  /** One command of clone `i` after whatever others did. */
  function Then(git: Git, w: World, others: seq<Step>, i: nat, a: Action): World {
    Next(git, Exec(git, w, others), Step(i, a))
  }

  predicate Wedged(w: World, i: nat) {
    i !in w.clones || w.clones[i].wedged
  }

  /** The attempts in order: the result and the world it leaves. */
  function Retry(git: Git, w: World, i: nat, env: seq<Attempt>): (PushResult, World)
    decreases |env|
  {
    if env == [] then (StillConflicting, w)
    else
      var e := env[0];
      if e.pushFails then
        (PushError, if e.unheard then Then(git, w, e.beforePush, i, PushUnheard) else Exec(git, w, e.beforePush))
      else
        var before := Exec(git, w, e.beforePush);
        var after := Then(git, w, e.beforePush, i, Push);
        if Wedged(before, i) then (PushError, after)
        else if CanPush(before, before.clones[i]) then (Pushed, after)
        else if e.fetchFails then (FetchError, after)
        else
          var rebased := Then(git, Then(git, after, e.beforeFetch, i, Fetch), e.beforeRebase, i, Rebase);
          if Wedged(rebased, i) then (RebaseError, rebased) else Retry(git, rebased, i, env[1..])
  }

  /** The bounded loop: at most three attempts. */
  method PushWithRetry(git: Git, w0: World, i: nat, hasRemote: bool, env: seq<Attempt>)
    returns (r: PushResult, w: World, attempts: nat)
    requires |env| >= 3
    ensures attempts <= 3
    ensures (r, w) == if hasRemote then Retry(git, w0, i, env[..3]) else (Pushed, w0)
    ensures r == StillConflicting ==> attempts == 3
  {
    hide Next, CanPush, Exec;
    w, attempts := w0, 0;
    if !hasRemote {
      return Pushed, w, attempts;
    }
    ghost var all := Retry(git, w0, i, env[..MAX_PUSH_RETRIES]);
    assert env[..MAX_PUSH_RETRIES][0..] == env[..MAX_PUSH_RETRIES];
    while attempts < MAX_PUSH_RETRIES
      invariant attempts <= MAX_PUSH_RETRIES
      invariant all == Retry(git, w, i, env[..MAX_PUSH_RETRIES][attempts..])
    {
      var e := env[attempts];
      ghost var left := env[..MAX_PUSH_RETRIES][attempts..];
      assert left[0] == e && left[1..] == env[..MAX_PUSH_RETRIES][attempts + 1..];
      attempts := attempts + 1;
      if e.pushFails {
        w := if e.unheard then Then(git, w, e.beforePush, i, PushUnheard) else Exec(git, w, e.beforePush);
        return PushError, w, attempts;
      }
      var before := Exec(git, w, e.beforePush);
      w := Then(git, w, e.beforePush, i, Push);
      if Wedged(before, i) {
        return PushError, w, attempts;
      }
      if CanPush(before, before.clones[i]) {
        return Pushed, w, attempts;
      }
      if e.fetchFails {
        return FetchError, w, attempts;
      }
      w := Then(git, w, e.beforeFetch, i, Fetch);
      w := Then(git, w, e.beforeRebase, i, Rebase);
      if Wedged(w, i) {
        return RebaseError, w, attempts;
      }
    }
    r := StillConflicting;
  }

  // ----- what success means

  lemma {:induction false} ClonesStay(git: Git, w: World, run: seq<Step>, i: nat)
    requires i in w.clones
    ensures i in Exec(git, w, run).clones
    ensures w.clones[i].made <= Exec(git, w, run).clones[i].made
  {
    if run != [] {
      ClonesStay(git, w, run[..|run| - 1], i);
      var v := Exec(git, w, run[..|run| - 1]);
      UpdateKeepsMade(git, v, v.clones[i], run[|run| - 1].action);
      hide Updated;
    }
  }

  lemma OneStep(git: Git, w: World, s: Step)
    ensures Exec(git, w, [s]) == Next(git, w, s)
  {
    hide Next;
    assert [s][..0] == [] && Exec(git, w, []) == w;
  }

  lemma ThenKeeps(git: Git, w: World, others: seq<Step>, i: nat, a: Action)
    requires Inv(git, w) && i in w.clones
    ensures var v := Then(git, w, others, i, a);
      Inv(git, v) && w.remote <= v.remote && i in v.clones && w.clones[i].made <= v.clones[i].made
    ensures var b := Exec(git, w, others);
      Inv(git, b) && w.remote <= b.remote && i in b.clones && w.clones[i].made <= b.clones[i].made
  {
    hide Inv, Next;
    var b := Exec(git, w, others);
    RunKeepsInv(git, w, others);
    RemoteOnlyGrows(git, w, others);
    ClonesStay(git, w, others, i);
    NextKeepsInv(git, b, Step(i, a));
    RemoteOnlyGrows(git, b, [Step(i, a)]);
    ClonesStay(git, b, [Step(i, a)], i);
    OneStep(git, b, Step(i, a));
  }

  /** Whatever others do in between, every outcome keeps the remote's history; success means that HEAD is
      the remote and every operation of the clone is accounted for; and an operation not discarded is
      then on the remote exactly when no rebase dropped it. */
  lemma {:induction false} RetryMeans(git: Git, w: World, i: nat, env: seq<Attempt>, op: nat)
    requires Inv(git, w) && i in w.clones && op in w.clones[i].made
    ensures var r := Retry(git, w, i, env);
      && Inv(git, r.1) && i in r.1.clones && w.remote <= r.1.remote && op in r.1.clones[i].made
      && (r.0 == Pushed ==>
            && r.1.remote == Head(r.1.clones[i]) && Accounted(git, r.1, r.1.clones[i], op)
            && (op !in r.1.clones[i].discarded ==> (op in Ops(r.1.remote) <==> !DroppedOp(r.1.clones[i], op))))
    decreases |env|
  {
    hide Inv, Next, CanPush, Accounted, Ops, DroppedOp, Exec, Head;
    if env != [] {
      var e := env[0];
      ThenKeeps(git, w, e.beforePush, i, PushUnheard);
      ThenKeeps(git, w, e.beforePush, i, Push);
      var before, after := Exec(git, w, e.beforePush), Then(git, w, e.beforePush, i, Push);
      if !e.pushFails && !Wedged(before, i) {
        if CanPush(before, before.clones[i]) {
          PushedMeansLanded(git, before, i, op);
          PushKeepsDiscarded(git, before, i);
          if op !in before.clones[i].discarded {
            LandsFrom(git, before, i, op);
          }
        } else if !e.fetchFails {
          ThenKeeps(git, after, e.beforeFetch, i, Fetch);
          var fetched := Then(git, after, e.beforeFetch, i, Fetch);
          ThenKeeps(git, fetched, e.beforeRebase, i, Rebase);
          var rebased := Then(git, fetched, e.beforeRebase, i, Rebase);
          if !Wedged(rebased, i) {
            RetryMeans(git, rebased, i, env[1..], op);
          }
        }
      }
    }
  }

  /** A clone that fetches and rebases with nobody in between can push, unless the rebase conflicts. */
  lemma CaughtUp(git: Git, w: World, i: nat)
    requires i in w.clones
    ensures var fetched := Next(git, w, Step(i, Fetch));
      var rebased := Next(git, fetched, Step(i, Rebase));
      && i in fetched.clones && i in rebased.clones && rebased.remote == w.remote
      && (Wedged(rebased, i) || CanPush(rebased, rebased.clones[i]))
      && (Wedged(rebased, i) <==> w.clones[i].wedged || (w.remote != [] && RebaseOf(git, fetched.clones[i]).None?))
  {
    hide RebaseOf;
  }

  /** One quiet spell is enough: with nobody between the first fetch and the second push and no failing
      command, the retry pushes unless the clone is wedged or the rebase conflicts; and a first push that
      nobody got ahead of is the last. */
  lemma RetryGetsThrough(git: Git, w: World, i: nat, env: seq<Attempt>)
    requires i in w.clones && |env| >= 2
    requires !env[0].pushFails && !env[0].fetchFails && env[0].beforeRebase == []
    requires !env[1].pushFails && env[1].beforePush == []
    ensures var r := Retry(git, w, i, env).0;
      var before := Exec(git, w, env[0].beforePush);
      var fetched := Then(git, Then(git, w, env[0].beforePush, i, Push), env[0].beforeFetch, i, Fetch);
      && i in before.clones && i in fetched.clones
      && (r == PushError <==> before.clones[i].wedged)
      && (r != PushError && before.remote <= Head(before.clones[i]) ==> r == Pushed)
      && (r != PushError && !(before.remote <= Head(before.clones[i])) ==>
            r == if fetched.clones[i].wedged || (fetched.remote != [] && RebaseOf(git, fetched.clones[i]).None?)
                 then RebaseError else Pushed)
  {
    var e := env[0];
    var before := Exec(git, w, e.beforePush);
    var after := Then(git, w, e.beforePush, i, Push);
    ClonesStay(git, w, e.beforePush, i);
    ClonesStay(git, before, [Step(i, Push)], i);
    OneStep(git, before, Step(i, Push));
    ClonesStay(git, after, e.beforeFetch, i);
    var others := Exec(git, after, e.beforeFetch);
    CaughtUp(git, others, i);
    FetchesTwice(git, others, i);
    hide Next, RebaseOf;
    var fetched := Next(git, others, Step(i, Fetch));
    QuietThen(git, fetched, i, Rebase);
    var rebased := Next(git, fetched, Step(i, Rebase));
    QuietThen(git, rebased, i, Push);
    hide Exec;
    assert env[1..][0] == env[1];
  }

  lemma FetchesTwice(git: Git, w: World, i: nat)
    requires i in w.clones
    ensures var f := Next(git, w, Step(i, Fetch));
      i in f.clones && f.remote == w.remote && f.clones[i].wedged == w.clones[i].wedged
  {
  }

  lemma ThenKinds(git: Git, w: World, others: seq<Step>, i: nat, a: Action, op: nat, kind: Kind)
    requires CommitsAs(w, op, kind) && Taken(w, op)
    ensures CommitsAs(Exec(git, w, others), op, kind) && Taken(Exec(git, w, others), op)
    ensures CommitsAs(Then(git, w, others, i, a), op, kind) && Taken(Then(git, w, others, i, a), op)
  {
    hide CommitsAs, Taken, Next, Exec;
    RunKeepsKinds(git, w, others, op, kind);
    NextKeepsKinds(git, Exec(git, w, others), Step(i, a), op, kind);
  }

  /** No attempt changes what an operation commits. */
  lemma {:induction false} RetryKinds(git: Git, w: World, i: nat, env: seq<Attempt>, op: nat, kind: Kind)
    requires CommitsAs(w, op, kind) && Taken(w, op)
    ensures CommitsAs(Retry(git, w, i, env).1, op, kind)
    decreases |env|
  {
    hide CommitsAs, Taken, Next, Exec, CanPush, Then, Wedged;
    if env != [] {
      var e := env[0];
      ThenKinds(git, w, e.beforePush, i, PushUnheard, op, kind);
      ThenKinds(git, w, e.beforePush, i, Push, op, kind);
      var after := Then(git, w, e.beforePush, i, Push);
      ThenKinds(git, after, e.beforeFetch, i, Fetch, op, kind);
      var fetched := Then(git, after, e.beforeFetch, i, Fetch);
      ThenKinds(git, fetched, e.beforeRebase, i, Rebase, op, kind);
      RetryKinds(git, Then(git, fetched, e.beforeRebase, i, Rebase), i, env[1..], op, kind);
      RetryUnfolds(git, w, i, env);
    }
  }

  /** The world a retry ends in is one of these. */
  lemma RetryUnfolds(git: Git, w: World, i: nat, env: seq<Attempt>)
    requires env != []
    ensures var e, end := env[0], Retry(git, w, i, env).1;
      var after := Then(git, w, e.beforePush, i, Push);
      var rebased := Then(git, Then(git, after, e.beforeFetch, i, Fetch), e.beforeRebase, i, Rebase);
      || end == Then(git, w, e.beforePush, i, PushUnheard) || end == Exec(git, w, e.beforePush)
      || end == after || end == rebased || end == Retry(git, rebased, i, env[1..]).1
  {
    hide Next, Exec, CanPush, Then, Wedged;
  }

  lemma PushKeepsDiscarded(git: Git, w: World, i: nat)
    requires i in w.clones
    ensures i in Next(git, w, Step(i, Push)).clones
    ensures Next(git, w, Step(i, Push)).clones[i].discarded == w.clones[i].discarded
  {
  }

  // ----- success without landing

  const USER: string := "users/alice.meta.yaml"

  function Alice(op: nat, content: string): Commit {
    Commit(op, Register(USER, content), map[USER := content])
  }

  /** Two clones register the same user with the same content; clone 1 pushes first. */
  function BothRegister(content: string): seq<Step> {
    [Step(0, Join), Step(1, Join), Step(0, Make(Alice(0, content))), Step(1, Make(Alice(1, content))), Step(1, Push)]
  }

  function AfterBoth(content: string): World {
    World([Alice(1, content)], map[
      0 := Clone([], [Alice(0, content)], [], false, {0}, {}, {}),
      1 := Clone([Alice(1, content)], [], [Alice(1, content)], false, {1}, {}, {})])
  }

  lemma MakesAlice(git: Git, w: World, i: nat, op: nat, content: string)
    requires i in w.clones && w.remote == [] && w.clones[i] == Clone([], [], [], false, {}, {}, {})
    requires forall j | j in w.clones :: op !in w.clones[j].made
    ensures Next(git, w, Step(i, Make(Alice(op, content))))
         == w.(clones := w.clones[i := Clone([], [Alice(op, content)], [], false, {op}, {}, {})])
  {
    var c := w.clones[i];
    assert Head(c) == [] && Tip([]) == map[];
    assert map[][USER := content] == map[USER := content] && USER in map[USER := content];
    assert CanMake(w, c, Alice(op, content));
    assert [] + [Alice(op, content)] == [Alice(op, content)] && {} + {op} == {op};
  }

  lemma ExecSnoc(git: Git, w: World, run: seq<Step>, s: Step)
    ensures Exec(git, w, run + [s]) == Next(git, Exec(git, w, run), s)
  {
    hide Next;
    assert (run + [s])[..|run|] == run;
  }

  lemma Joins(git: Git, w: World, i: nat)
    requires i !in w.clones && w.remote == []
    ensures Next(git, w, Step(i, Join)) == w.(clones := w.clones[i := Clone([], [], [], false, {}, {}, {})])
  {
  }

  lemma BothReach(git: Git, content: string)
    ensures Exec(git, World([], map[]), BothRegister(content)) == AfterBoth(content)
  {
    var a, b := Alice(0, content), Alice(1, content);
    var w2 := World([], map[0 := FRESH, 1 := FRESH]);
    var w3 := World([], w2.clones[0 := Clone([], [a], [], false, {0}, {}, {})]);
    var w4 := World([], w3.clones[1 := Clone([], [b], [], false, {1}, {}, {})]);
    BothJoin(git);
    MakesAlice(git, w2, 0, 0, content);
    MakesAlice(git, w3, 1, 1, content);
    FirstPush(git, w4, b);
    assert w4.clones[1 := Clone([b], [], [b], false, {1}, {}, {})] == AfterBoth(content).clones;
    hide Next, Exec, Alice;
    var w0 := World([], map[]);
    var r2 := [Step(0, Join), Step(1, Join)];
    ExecSnoc(git, w0, r2, Step(0, Make(a)));
    var r3 := r2 + [Step(0, Make(a))];
    ExecSnoc(git, w0, r3, Step(1, Make(b)));
    var r4 := r3 + [Step(1, Make(b))];
    ExecSnoc(git, w0, r4, Step(1, Push));
    assert BothRegister(content) == r4 + [Step(1, Push)];
  }

  const FRESH: Clone := Clone([], [], [], false, {}, {}, {})

  lemma BothJoin(git: Git)
    ensures Exec(git, World([], map[]), [Step(0, Join), Step(1, Join)]) == World([], map[0 := FRESH, 1 := FRESH])
  {
    var w0 := World([], map[]);
    var w1 := World([], map[0 := FRESH]);
    Joins(git, w0, 0);
    Joins(git, w1, 1);
    assert w0.clones[0 := FRESH] == w1.clones && w1.clones[1 := FRESH] == map[0 := FRESH, 1 := FRESH];
    hide Next;
    OneStep(git, w0, Step(0, Join));
    hide Exec;
    ExecSnoc(git, w0, [Step(0, Join)], Step(1, Join));
    assert [Step(0, Join)] + [Step(1, Join)] == [Step(0, Join), Step(1, Join)];
  }

  lemma FirstPush(git: Git, w: World, b: Commit)
    requires w.remote == [] && 1 in w.clones && w.clones[1] == Clone([], [b], [], false, {1}, {}, {})
    ensures Next(git, w, Step(1, Push)) == World([b], w.clones[1 := Clone([b], [], [b], false, {1}, {}, {})])
  {
    assert Head(w.clones[1]) == [b];
  }

  function Quiet(): Attempt {
    Attempt([], false, false, [], false, [])
  }

  lemma QuietThen(git: Git, w: World, i: nat, a: Action)
    ensures Exec(git, w, []) == w && Then(git, w, [], i, a) == Next(git, w, Step(i, a))
  {
    hide Next;
  }

  /** Clone 0 as it stands in both runs below: one local registration, nothing fetched yet. */
  function Waiting(a: Commit, up: History): Clone {
    Clone([], [a], up, false, {0}, {}, {})
  }

  /** A clone whose only commit a rebase onto `r` leaves out ends up at the remote without it. */
  lemma LeftOutThenPushed(git: Git, w: World, r: History, a: Commit, d: Drop)
    requires w.remote == r && 0 in w.clones && w.clones[0] == Waiting(a, []) && r != [] && r[0] != a
    requires d.commit == a && a.op == 0
    requires Rebased(git, Waiting(a, r)) == Clone(r, [], r, false, {0}, {}, {d})
    ensures var end := Retry(git, w, 0, [Quiet(), Quiet(), Quiet()]);
      && end.0 == Pushed && end.1.remote == r
      && 0 in end.1.clones && Head(end.1.clones[0]) == r && DroppedOp(end.1.clones[0], 0)
  {
    var env := [Quiet(), Quiet(), Quiet()];
    var fetched := w.(clones := w.clones[0 := Waiting(a, r)]);
    var rebased := w.(clones := w.clones[0 := Clone(r, [], r, false, {0}, {}, {d})]);
    assert fetched.clones[0 := rebased.clones[0]] == rebased.clones;
    PushRefused(git, w, a, r);
    Fetches(git, w, fetched, a, r);
    Rebases(git, fetched, rebased);
    QuietThen(git, w, 0, Push);
    QuietThen(git, w, 0, Fetch);
    QuietThen(git, fetched, 0, Rebase);
    QuietThen(git, rebased, 0, Push);
    LastPush(git, rebased, r, d);
    hide Next, Exec, Rebased, CanPush, Waiting;
    assert env[0] == Quiet() && env[1..][0] == Quiet();
  }

  lemma PushRefused(git: Git, w: World, a: Commit, r: History)
    requires w.remote == r && 0 in w.clones && w.clones[0] == Waiting(a, []) && r != [] && r[0] != a
    ensures !CanPush(w, w.clones[0]) && Next(git, w, Step(0, Push)) == w
  {
    assert Head(w.clones[0]) == [a];
    assert w.clones[0 := w.clones[0]] == w.clones;
  }

  lemma Fetches(git: Git, w: World, fetched: World, a: Commit, r: History)
    requires w.remote == r && 0 in w.clones && w.clones[0] == Waiting(a, [])
    requires fetched == w.(clones := w.clones[0 := Waiting(a, r)])
    ensures Next(git, w, Step(0, Fetch)) == fetched
  {
  }

  lemma Rebases(git: Git, w: World, rebased: World)
    requires 0 in w.clones && !w.clones[0].wedged && Tracks(w.clones[0]) && 0 in rebased.clones && rebased.remote == w.remote
    requires rebased.clones[0] == Rebased(git, w.clones[0]) && w.clones[0 := rebased.clones[0]] == rebased.clones
    ensures Next(git, w, Step(0, Rebase)) == rebased
  {
    hide Rebased;
  }

  lemma LastPush(git: Git, w: World, r: History, d: Drop)
    requires w.remote == r && 0 in w.clones && w.clones[0] == Clone(r, [], r, false, {0}, {}, {d}) && d.commit.op == 0
    ensures CanPush(w, w.clones[0])
    ensures var v := Next(git, w, Step(0, Push));
      v.remote == r && 0 in v.clones && Head(v.clones[0]) == r && DroppedOp(v.clones[0], 0)
  {
    assert r + [] == r;
  }

  lemma DropsOnly(ds: seq<Drop>, d: Drop)
    requires ds == [d]
    ensures {} + (set i | 0 <= i < |ds| :: ds[i]) == {d}
  {
    assert ds[0] == d;
  }

  /** The rebase of a lone commit onto an upstream that starts differently. */
  lemma LoneRebase(git: Git, a: Commit, r: History)
    requires r != [] && r[0] != a
    ensures RebaseOf(git, Waiting(a, r)) == Replay(git, Patches(r, 0), r, map[], [a], {})
  {
    hide Replay, Patches;
    assert [] + [a] == [a] && !([a] <= r);
    assert Shared([], [a], r) == 0;
    assert [] + [a][..0] == [] && [a][0..] == [a] && Tip([]) == map[];
  }

  lemma LoneTurn(git: Git, news: seq<Patch>, r: History, a: Commit)
    ensures var t := TurnOf(git, news, r, map[], a, {});
      t.Some? && t.value.kept == [] ==> Replay(git, news, r, map[], [a], {}) == Some(Replayed([], t.value.left))
  {
    hide TurnOf;
    ReplayTurns(git, news, r, map[], [a], {});
    assert [a][1..] == [];
    var t := TurnOf(git, news, r, map[], a, {});
    if t.Some? && t.value.kept == [] {
      assert Replay(git, news, t.value.up, a.tree, [], t.value.tangled) == Some(Replayed([], []));
      assert t.value.left + [] == t.value.left;
    }
  }

  lemma AliceIsDropped(git: Git, content: string)
    ensures var a, r := Alice(0, content), [Alice(1, content)];
      exists d: Drop :: d.commit == a && Rebased(git, Waiting(a, r)) == Clone(r, [], r, false, {0}, {}, {d})
  {
    var a, r := Alice(0, content), [Alice(1, content)];
    LoneRebase(git, a, r);
    LoneTurn(git, Patches(r, 0), r, a);
    MergeRegister(git, map[], USER, content, Tip(r));
    assert map[][USER := content] == a.tree && At(Tip(r), USER) == Some(content);
    hide Merge, Replay, Patches, Applied;
    var t := TurnOf(git, Patches(r, 0), r, map[], a, {}).value;
    var d := t.left[0];
    DropsOnly(t.left, d);
    assert Rebased(git, Waiting(a, r)) == Clone(r, [], r, false, {0}, {}, {d});
  }

  /** The retry loop of clone 0 then reports success, and its registration is not on the remote. */
  lemma PushedButMissing(git: Git, content: string)
    ensures var w := Exec(git, World([], map[]), BothRegister(content));
      var r := Retry(git, w, 0, [Quiet(), Quiet(), Quiet()]);
      && 0 in w.clones && 0 in w.clones[0].made
      && r.0 == Pushed && 0 in r.1.clones && r.1.remote == Head(r.1.clones[0])
      && 0 !in Ops(r.1.remote) && DroppedOp(r.1.clones[0], 0)
  {
    BothReach(git, content);
    AliceIsDropped(git, content);
    var a, r := Alice(0, content), [Alice(1, content)];
    var d: Drop :| d.commit == a && Rebased(git, Waiting(a, r)) == Clone(r, [], r, false, {0}, {}, {d});
    hide Rebased, Exec, Retry;
    LeftOutThenPushed(git, AfterBoth(content), r, a, d);
  }

  // ----- success, and not even the file is there

  const DEPARTED: string := "archive/users/alice.meta.yaml"

  function Departure(content: string): Commit {
    Commit(2, Other, map[DEPARTED := content])
  }

  /** As before, and then clone 1 also pushes the user's departure. */
  function ThenDeparts(content: string): seq<Step> {
    BothRegister(content) + [Step(1, Make(Departure(content)))] + [Step(1, Push)]
  }

  function AfterDeparture(content: string): World {
    var r := [Alice(1, content), Departure(content)];
    World(r, map[0 := Waiting(Alice(0, content), []), 1 := Clone(r, [], r, false, {1, 2}, {}, {})])
  }

  lemma DepartureReached(git: Git, content: string)
    ensures Exec(git, World([], map[]), ThenDeparts(content)) == AfterDeparture(content)
  {
    var b, x := Alice(1, content), Departure(content);
    var w := AfterBoth(content);
    var w1 := w.(clones := w.clones[1 := Clone([b], [x], [b], false, {1, 2}, {}, {})]);
    BothReach(git, content);
    MakesDeparture(git, content);
    DeparturePushed(git, w1, b, x);
    assert w1.clones[1 := Clone([b, x], [], [b, x], false, {1, 2}, {}, {})] == AfterDeparture(content).clones;
    hide Next, Exec;
    var r1 := BothRegister(content);
    ExecSnoc(git, World([], map[]), r1, Step(1, Make(x)));
    ExecSnoc(git, World([], map[]), r1 + [Step(1, Make(x))], Step(1, Push));
  }

  lemma MakesDeparture(git: Git, content: string)
    ensures var w := AfterBoth(content);
      Next(git, w, Step(1, Make(Departure(content))))
      == w.(clones := w.clones[1 := Clone([Alice(1, content)], [Departure(content)], [Alice(1, content)], false, {1, 2}, {}, {})])
  {
    var w, b, x := AfterBoth(content), Alice(1, content), Departure(content);
    var c := w.clones[1];
    assert Head(c) == [b] && Tip([b]) == b.tree;
    assert USER in b.tree && USER !in x.tree;
    assert w.remote[0].op == 1;
    assert CanMake(w, c, x);
    assert [] + [x] == [x] && {1} + {2} == {1, 2};
  }

  lemma DeparturePushed(git: Git, w: World, b: Commit, x: Commit)
    requires w.remote == [b] && 1 in w.clones && w.clones[1] == Clone([b], [x], [b], false, {1, 2}, {}, {})
    ensures Next(git, w, Step(1, Push)) == World([b, x], w.clones[1 := Clone([b, x], [], [b, x], false, {1, 2}, {}, {})])
  {
    assert Head(w.clones[1]) == [b, x];
  }

  /** A commit is at least the same patch as one that makes the same change to the same tree. */
  ghost predicate KnowsItself(git: Git) {
    forall p :: git.same(p, p)
  }

  lemma AliceIsSkipped(git: Git, content: string)
    requires KnowsItself(git)
    ensures var a, r := Alice(0, content), [Alice(1, content), Departure(content)];
      exists d: Drop :: d.commit == a && d.applied && Rebased(git, Waiting(a, r)) == Clone(r, [], r, false, {0}, {}, {d})
  {
    var a, r := Alice(0, content), [Alice(1, content), Departure(content)];
    LoneRebase(git, a, r);
    LoneTurn(git, Patches(r, 0), r, a);
    assert Patches(r, 0)[0] == Patch(map[], a.tree);
    assert Applied(git, Patches(r, 0), map[], a.tree);
    hide Merge, Replay, Patches, Applied;
    var t := TurnOf(git, Patches(r, 0), r, map[], a, {}).value;
    var d := t.left[0];
    DropsOnly(t.left, d);
    assert Rebased(git, Waiting(a, r)) == Clone(r, [], r, false, {0}, {}, {d});
  }

  /** The rebase skips clone 0's registration as already applied although the file has gone again: the retry
      loop reports success, and neither the commit nor the file is at the remote's tip. */
  lemma PushedAndGone(git: Git, content: string)
    requires KnowsItself(git)
    ensures var w := Exec(git, World([], map[]), ThenDeparts(content));
      var r := Retry(git, w, 0, [Quiet(), Quiet(), Quiet()]);
      && 0 in w.clones && 0 in w.clones[0].made
      && r.0 == Pushed && 0 !in Ops(r.1.remote) && USER !in Tip(r.1.remote)
  {
    DepartureReached(git, content);
    AliceIsSkipped(git, content);
    var a, r := Alice(0, content), [Alice(1, content), Departure(content)];
    var d: Drop :| d.commit == a && d.applied && Rebased(git, Waiting(a, r)) == Clone(r, [], r, false, {0}, {}, {d});
    GoneFromTip(content);
    hide Rebased, Exec, Retry, Ops, TreeAt;
    LeftOutThenPushed(git, AfterDeparture(content), r, a, d);
  }

  lemma GoneFromTip(content: string)
    ensures var r := [Alice(1, content), Departure(content)]; 0 !in Ops(r) && USER !in Tip(r)
  {
    var x := Departure(content);
    assert DEPARTED[0] != USER[0];
  }
}
