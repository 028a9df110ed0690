/** Many clones, each with its handler and its own copy of the specs: which of them can commit the same
    fire. */
module CronFleet {
  import opened Results
  import opened CronEngine
  import opened CronRuns

  datatype Member = Member(self: string, world: World)

  type Fleet = map<nat, Member>

  /** A clone joins; something happens in one clone; a spec reaches another clone that has none of that
      name, with its origin and its fires. */
  datatype FleetEvent =
    | Enlist(who: nat, self: string)
    | Local(who: nat, event: Event)
    | Share(from: nat, to: nat, name: string)

  ghost function MemberStep(cx: Codec, f: Fleet, who: nat, e: Event): Option<Fleet> {
    if who in f && Enabled(cx, f[who].world, e)
    then Some(f[who := f[who].(world := After(cx, f[who].self, f[who].world, e))]) else None
  }

  ghost function FleetStep(cx: Codec, f: Fleet, e: FleetEvent): Option<Fleet> {
    match e
    case Enlist(who, self) => if who in f then None else Some(f[who := Member(self, EMPTY)])
    case Local(who, event) => if event.Received? then None else MemberStep(cx, f, who, event)
    case Share(from, to, name) =>
      if from in f && name in f[from].world.active && name in f[from].world.origin
      then MemberStep(cx, f, to, Received(name, f[from].world.active[name], f[from].world.origin[name])) else None
  }

  ghost function FleetExec(cx: Codec, run: seq<FleetEvent>): Option<Fleet> {
    if run == [] then Some(map[])
    else
      var f :- FleetExec(cx, run[..|run| - 1]);
      FleetStep(cx, f, run[|run| - 1])
  }

  ghost predicate FleetInv(cx: Codec, f: Fleet) {
    forall i | i in f :: Inv(cx, f[i].self, f[i].world)
  }

  lemma FleetStepKeepsInv(cx: Codec, f: Fleet, e: FleetEvent)
    requires cx.Sound() && FleetInv(cx, f) && FleetStep(cx, f, e).Some?
    ensures FleetInv(cx, FleetStep(cx, f, e).value)
  {
    hide Inv, After, Enabled;
    match e {
      case Enlist(_, self) => EmptyInv(cx, self);
      case Local(who, event) => StepKeepsInv(cx, f[who].self, f[who].world, event);
      case Share(from, to, name) =>
        StepKeepsInv(cx, f[to].self, f[to].world, Received(name, f[from].world.active[name], f[from].world.origin[name]));
    }
  }

  lemma {:induction false} FleetRunKeepsInv(cx: Codec, run: seq<FleetEvent>)
    requires cx.Sound() && FleetExec(cx, run).Some?
    ensures FleetInv(cx, FleetExec(cx, run).value)
  {
    hide FleetInv, FleetStep;
    if run == [] {
      assert FleetInv(cx, map[]) by {
        EmptyFleet(cx);
      }
    } else {
      FleetRunKeepsInv(cx, run[..|run| - 1]);
      FleetStepKeepsInv(cx, FleetExec(cx, run[..|run| - 1]).value, run[|run| - 1]);
    }
  }

  lemma EmptyFleet(cx: Codec)
    ensures FleetInv(cx, map[])
  {
  }

  /** Everything a clone committed, as a fire or along with something else. */
  function CommittedFires(w: World): set<Fired> {
    w.carried + set i | 0 <= i < |w.log| :: w.log[i]
  }

  lemma CommittedIsOwn(cx: Codec, self: string, w: World, x: Fired)
    requires Inv(cx, self, w) && x in CommittedFires(w)
    ensures x.name in w.origin && self in w.origin[x.name].targets
  {
  }

  /** In every run of any number of clones, two clones with different handlers commit the same fire only if
      each store had recorded its own handler as a target of that spec. */
  lemma RivalTargets(cx: Codec, run: seq<FleetEvent>, i: nat, j: nat, x: Fired)
    requires cx.Sound() && FleetExec(cx, run).Some?
    requires var f := FleetExec(cx, run).value;
      && i in f && j in f && f[i].self != f[j].self
      && x in CommittedFires(f[i].world) && x in CommittedFires(f[j].world)
    ensures var f := FleetExec(cx, run).value;
      && x.name in f[i].world.origin && x.name in f[j].world.origin
      && f[i].self in f[i].world.origin[x.name].targets && f[j].self in f[j].world.origin[x.name].targets
  {
    hide Inv, CommittedFires, FleetExec;
    FleetRunKeepsInv(cx, run);
    var f := FleetExec(cx, run).value;
    CommittedIsOwn(cx, f[i].self, f[i].world, x);
    CommittedIsOwn(cx, f[j].self, f[j].world, x);
  }

  // ----- one creator per name

  predicate Creates(e: FleetEvent, name: string) {
    e.Local? && e.event.Created? && e.event.name == name
  }

  /** No name is created in two places. */
  ghost predicate CreatedOnce(run: seq<FleetEvent>) {
    forall k, l, name | 0 <= k < l < |run| && Creates(run[k], name) :: !Creates(run[l], name)
  }

  ghost predicate CreatedIn(run: seq<FleetEvent>, name: string) {
    exists k | 0 <= k < |run| :: Creates(run[k], name)
  }

  /** Every store has the same origin for a name, with one target. */
  ghost predicate Agree(f: Fleet) {
    && (forall i, j, n | i in f && j in f && n in f[i].world.origin && n in f[j].world.origin ::
          f[i].world.origin[n] == f[j].world.origin[n])
    && (forall i, n | i in f && n in f[i].world.origin ::
          f[i].world.origin[n].targets == {f[i].world.origin[n].target})
  }

  ghost predicate OriginsCreated(f: Fleet, run: seq<FleetEvent>) {
    forall i, n | i in f && n in f[i].world.origin :: CreatedIn(run, n)
  }

  lemma OriginAfter(cx: Codec, self: string, w: World, e: Event)
    requires Enabled(cx, w, e)
    ensures After(cx, self, w, e).origin
         == match e
            case Created(name, spec) => w.origin[name := NewOrigin(w, name, spec)]
            case Received(name, _, origin) => w.origin[name := origin]
            case _ => w.origin
  {
    hide Due, Listing, FileName;
  }

  lemma CreatedStays(init: seq<FleetEvent>, e: FleetEvent, n: string)
    requires CreatedIn(init, n)
    ensures CreatedIn(init + [e], n)
  {
    var k :| 0 <= k < |init| && Creates(init[k], n);
    assert (init + [e])[k] == init[k];
  }

  lemma CreatedNow(init: seq<FleetEvent>, e: FleetEvent, n: string)
    requires Creates(e, n)
    ensures CreatedIn(init + [e], n)
    ensures CreatedIn(init, n) ==> !CreatedOnce(init + [e])
  {
    var run := init + [e];
    assert run[|init|] == e;
    if CreatedIn(init, n) {
      var k :| 0 <= k < |init| && Creates(init[k], n);
      assert Creates(run[k], n) && Creates(run[|init|], n);
    }
  }

  /** A member takes over an origin that nobody has, or that another member has the same. */
  lemma Takes(f: Fleet, who: nat, m: Member, name: string, o: Origin)
    requires who in f && Agree(f) && m.world.origin == f[who].world.origin[name := o]
    requires forall i | i in f && name in f[i].world.origin :: f[i].world.origin[name] == o
    requires o.targets == {o.target}
    ensures Agree(f[who := m])
  {
  }

  lemma {:induction false} OneCreatorAgrees(cx: Codec, run: seq<FleetEvent>)
    requires CreatedOnce(run) && FleetExec(cx, run).Some?
    ensures Agree(FleetExec(cx, run).value) && OriginsCreated(FleetExec(cx, run).value, run)
  {
    hide After, Enabled, CreatedIn, CreatedOnce;
    if run != [] {
      var init, e := run[..|run| - 1], run[|run| - 1];
      assert run == init + [e];
      CreatedOnceBefore(init, e);
      OneCreatorAgrees(cx, init);
      var f, g := FleetExec(cx, init).value, FleetExec(cx, run).value;
      hide FleetExec;
      OriginsStep(cx, f, e, init);
    }
  }

  lemma CreatedOnceBefore(init: seq<FleetEvent>, e: FleetEvent)
    requires CreatedOnce(init + [e])
    ensures CreatedOnce(init)
  {
    var run := init + [e];
    assert forall k | 0 <= k < |init| :: run[k] == init[k];
  }

  lemma OriginsStep(cx: Codec, f: Fleet, e: FleetEvent, init: seq<FleetEvent>)
    requires FleetStep(cx, f, e).Some? && Agree(f) && OriginsCreated(f, init) && CreatedOnce(init + [e])
    ensures Agree(FleetStep(cx, f, e).value) && OriginsCreated(FleetStep(cx, f, e).value, init + [e])
  {
    hide After, Enabled, CreatedIn, CreatedOnce, Agree;
    var g := FleetStep(cx, f, e).value;
    forall n | CreatedIn(init, n) ensures CreatedIn(init + [e], n) {
      CreatedStays(init, e, n);
    }
    match e {
      case Enlist(who, self) => EnlistAgrees(f, who, self);
      case Local(who, event) =>
        OriginAfter(cx, f[who].self, f[who].world, event);
        if event.Created? {
          CreatedNow(init, e, event.name);
          Takes(f, who, g[who], event.name, NewOrigin(f[who].world, event.name, event.spec));
        } else {
          SameAgrees(f, who, g[who]);
        }
      case Share(from, to, name) =>
        var o := f[from].world.origin[name];
        OriginAfter(cx, f[to].self, f[to].world, Received(name, f[from].world.active[name], o));
        AgreeWith(f, from, name);
        Takes(f, to, g[to], name, o);
    }
  }

  lemma EnlistAgrees(f: Fleet, who: nat, self: string)
    requires Agree(f)
    ensures Agree(f[who := Member(self, EMPTY)])
  {
  }

  lemma SameAgrees(f: Fleet, who: nat, m: Member)
    requires who in f && Agree(f) && m.world.origin == f[who].world.origin
    ensures Agree(f[who := m])
  {
  }

  lemma AgreeWith(f: Fleet, from: nat, name: string)
    requires Agree(f) && from in f && name in f[from].world.origin
    ensures forall i | i in f && name in f[i].world.origin :: f[i].world.origin[name] == f[from].world.origin[name]
    ensures f[from].world.origin[name].targets == {f[from].world.origin[name].target}
  {
  }

  /** If every name is created in one clone only and reaches the others from there, clones with different
      handlers never commit the same fire. */
  lemma OneCloneFires(cx: Codec, run: seq<FleetEvent>, i: nat, j: nat)
    requires cx.Sound() && CreatedOnce(run) && FleetExec(cx, run).Some?
    requires var f := FleetExec(cx, run).value; i in f && j in f && f[i].self != f[j].self
    ensures var f := FleetExec(cx, run).value; CommittedFires(f[i].world) !! CommittedFires(f[j].world)
  {
    hide CommittedFires, FleetExec;
    OneCreatorAgrees(cx, run);
    var f := FleetExec(cx, run).value;
    if x :| x in CommittedFires(f[i].world) && x in CommittedFires(f[j].world) {
      RivalTargets(cx, run, i, j, x);
      assert false;
    }
  }

  // ----- two creators

  lemma FleetSnoc(cx: Codec, run: seq<FleetEvent>, e: FleetEvent)
    requires FleetExec(cx, run).Some?
    ensures FleetExec(cx, run + [e]) == FleetStep(cx, FleetExec(cx, run).value, e)
  {
    hide FleetStep;
    assert (run + [e])[..|run|] == run;
  }

  lemma CommitsTheMinute(cx: Codec, self: string)
    ensures Fired("n", MINUTE) in CommittedFires(After3(cx, self))
  {
    assert After3(cx, self).log[0] == Fired("n", MINUTE);
  }

  /** A clone's three steps inside any fleet. */
  lemma MinuteInFleet(cx: Codec, run: seq<FleetEvent>, who: nat, self: string)
    requires cx.Sound() && cx.Covers(NOW) && FleetExec(cx, run).Some? && who !in FleetExec(cx, run).value
    ensures var more := run + [Enlist(who, self)] + [Local(who, Created("n", Minutely(self, 0)))]
                        + [Local(who, Ticked(NOW, ["n"]))] + [Local(who, Served(Committed))];
      && FleetExec(cx, more).Some?
      && var g := FleetExec(cx, more).value;
      && who in g && g[who].self == self && Fired("n", MINUTE) in CommittedFires(g[who].world)
      && g.Keys == FleetExec(cx, run).value.Keys + {who}
      && forall i | i in FleetExec(cx, run).value :: g[i] == FleetExec(cx, run).value[i]
  {
    Creates1(cx, self);
    Ticks2(cx, self);
    Serves3(cx, self);
    CommitsTheMinute(cx, self);
    hide After, Enabled, After1, After2, After3, CommittedFires, FleetExec;
    var r1 := run + [Enlist(who, self)];
    FleetSnoc(cx, run, Enlist(who, self));
    var r2 := r1 + [Local(who, Created("n", Minutely(self, 0)))];
    FleetSnoc(cx, r1, Local(who, Created("n", Minutely(self, 0))));
    var r3 := r2 + [Local(who, Ticked(NOW, ["n"]))];
    FleetSnoc(cx, r2, Local(who, Ticked(NOW, ["n"])));
    FleetSnoc(cx, r3, Local(who, Served(Committed)));
  }

  function Rivals(a: string, b: string): seq<FleetEvent> {
    [] + [Enlist(0, a)] + [Local(0, Created("n", Minutely(a, 0)))] + [Local(0, Ticked(NOW, ["n"]))] + [Local(0, Served(Committed))]
    + [Enlist(1, b)] + [Local(1, Created("n", Minutely(b, 0)))] + [Local(1, Ticked(NOW, ["n"]))] + [Local(1, Served(Committed))]
  }

  /** Two clones that create the same name before they sync, each for itself, both commit the same fire. */
  lemma RivalsBothFire(cx: Codec, a: string, b: string)
    requires cx.Sound() && cx.Covers(NOW)
    ensures FleetExec(cx, Rivals(a, b)).Some?
    ensures var f := FleetExec(cx, Rivals(a, b)).value;
      && 0 in f && 1 in f && f[0].self == a && f[1].self == b
      && Fired("n", MINUTE) in CommittedFires(f[0].world) && Fired("n", MINUTE) in CommittedFires(f[1].world)
  {
    assert FleetExec(cx, []) == Some(map[]);
    hide FleetExec, CommittedFires;
    MinuteInFleet(cx, [], 0, a);
    var first := [] + [Enlist(0, a)] + [Local(0, Created("n", Minutely(a, 0)))] + [Local(0, Ticked(NOW, ["n"]))] + [Local(0, Served(Committed))];
    MinuteInFleet(cx, first, 1, b);
  }
}
