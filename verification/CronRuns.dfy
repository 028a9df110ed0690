/** Whole runs of one clone's cron engine against a store that others change: ticks, fires that
    fail or crash part way, spec edits, deletions, creations, and specs and files that arrive by pull. */
module CronRuns {
  import opened Results
  import opened CronEngine

  datatype Fired = Fired(name: string, ts: int)

  /** What a spec was created with, which edits leave alone, and what earlier creations of the same name left
      behind: a time before all its fires, and every target it ever had. */
  datatype Origin = Origin(born: int, target: string, floor: int, targets: set<string>)

  /** The clone's `crons/` directory, the names moved to the archive, the origin of each spec, the
      requests of the current tick still to be served, the fires committed as such, the fires left in
      the index by a failed commit, and those that another commit took along from there. */
  datatype World = World(
    active: map<string, SpecDir>, archived: set<string>, origin: map<string, Origin>,
    pending: seq<FireRequest>, log: seq<Fired>, staged: set<Fired>, carried: set<Fired>)

  const EMPTY: World := World(map[], {}, map[], [], [], {}, {})

  /** How the write and the commit of one fire went. The rollback of a failed commit removes the file
      (a crash leaves it) and never unstages it. */
  datatype Outcome = WriteFailed | CommitFailed(fileRemoved: bool, staged: bool) | Committed

  function AddName(w: World, name: string, file: string): World
    requires name in w.active
  {
    w.(active := w.active[name := w.active[name].(names := w.active[name].names + [file])])
  }

  /** A commit takes the whole index. */
  function Flushed(w: World, own: set<Fired>): World {
    w.(staged := {}, carried := w.carried + (w.staged - own))
  }

  /** `fire` on one request: skipped if the spec is gone or the file is there. A fire that is already in
      HEAD adds nothing to the commit. */
  function AfterFire(cx: Codec, w: World, r: FireRequest, outcome: Outcome): World {
    if r.name !in w.active || w.active[r.name].file.Missing? then w
    else if FileName(cx, r.ts) in w.active[r.name].names then w
    else
      var f := Fired(r.name, r.ts);
      match outcome
      case WriteFailed => w
      case CommitFailed(fileRemoved, staged) =>
        (if fileRemoved then w else AddName(w, r.name, FileName(cx, r.ts)))
          .(staged := if staged && f !in w.carried then w.staged + {f} else w.staged)
      case Committed =>
        var v := Flushed(AddName(w, r.name, FileName(cx, r.ts)), {f});
        if f in w.carried then v else v.(log := w.log + [f])
  }

  /** One clone's store, changed in place by `fire`. */
  class Engine {
    var world: World

    constructor ()
      ensures world == EMPTY
    {
      world := EMPTY;
    }

    /** Write, add, commit, and take the file away again when the commit fails. */
    method Fire(cx: Codec, r: FireRequest, outcome: Outcome) returns (ok: bool)
      modifies this
      ensures world == AfterFire(cx, old(world), r, outcome)
      ensures ok <==>
        || r.name !in old(world).active
        || old(world).active[r.name].file.Missing?
        || cx.stem(r.ts) + ".thread" in old(world).active[r.name].names
        || outcome == Committed
      ensures var served :=
          && r.name in old(world).active && !old(world).active[r.name].file.Missing?
          && cx.stem(r.ts) + ".thread" !in old(world).active[r.name].names;
        && (ok && !served ==> world == old(world))
        && (ok && served ==>
          && world.active.Keys == old(world).active.Keys
          && world.active[r.name] == old(world).active[r.name].(names := old(world).active[r.name].names + [cx.stem(r.ts) + ".thread"])
          && (forall n | n in old(world).active && n != r.name :: world.active[n] == old(world).active[n])
          && world.log == old(world).log + (if Fired(r.name, r.ts) in old(world).carried then [] else [Fired(r.name, r.ts)])
          && world.staged == {})
      ensures !ok ==>
        && world.log == old(world).log
        && (outcome.WriteFailed? || outcome.fileRemoved ==> world.active == old(world).active)
    {
      var file := FileName(cx, r.ts);
      if r.name !in world.active || world.active[r.name].file.Missing? {
        return true;
      }
      if file in world.active[r.name].names {
        return true;
      }
      if outcome.WriteFailed? {
        return false;
      }
      ghost var before := world;
      var dir, f := world.active[r.name], Fired(r.name, r.ts);
      world := AddName(world, r.name, file);
      if outcome.CommitFailed? {
        if outcome.staged && f !in world.carried {
          world := world.(staged := world.staged + {f});
        }
        if outcome.fileRemoved {
          world := world.(active := world.active[r.name := dir]);
          assert world.active == before.active;
        }
        return false;
      }
      var known := f in world.carried;
      world := Flushed(world, {f});
      if !known {
        world := world.(log := world.log + [f]);
      }
      return true;
    }
  }

  datatype Event =
    | Ticked(now: int, listing: seq<string>)
    | Served(outcome: Outcome)
    | Restarted
    | CommittedElsewhere   // any other handler's commit
    | Created(name: string, spec: Spec)
    | Received(name: string, dir: SpecDir, origin: Origin)   // a spec that arrives by pull
    | Deleted(name: string)
    | Edited(name: string, file: SpecFile)
    | Pulled(name: string, path: string)

  function Listing(w: World, names: seq<string>): seq<Listed>
    requires forall i | 0 <= i < |names| :: names[i] in w.active
  {
    seq(|names|, i requires 0 <= i < |names| => Dir(names[i], w.active[names[i]]))
  }

  ghost predicate Scheduled(spec: Spec) {
    exists occ: int -> bool :: Follows(spec.next, occ)
  }

  ghost predicate FileInv(file: SpecFile, o: Origin) {
    file.Parsed? ==> file.spec.createdAt == o.born && file.spec.target == o.target && Scheduled(file.spec)
  }

  /** Fires on disk are later than the floor. */
  ghost predicate DirInv(cx: Codec, dir: SpecDir, o: Origin) {
    && FileInv(dir.file, o) && o.floor <= o.born && o.target in o.targets
    && (forall i | 0 <= i < |dir.names| && FireOf(cx, dir.names[i]).Some? :: o.floor < FireOf(cx, dir.names[i]).value)
  }

  predicate Unused(w: World, name: string) {
    name !in w.active && name !in w.archived
  }

  /** Create only looks for `spec.yaml`, active or archived: a directory whose spec is gone does not stop it. */
  predicate Creatable(w: World, name: string) {
    name !in w.archived && (name !in w.active || w.active[name].file.Missing?)
  }

  function Min(a: int, b: int): int {
    if a < b then a else b
  }

  function NewOrigin(w: World, name: string, spec: Spec): Origin {
    if name in w.origin then
      Origin(spec.createdAt, spec.target, Min(w.origin[name].floor, spec.createdAt), w.origin[name].targets + {spec.target})
    else Origin(spec.createdAt, spec.target, spec.createdAt, {spec.target})
  }

  function NewDir(w: World, name: string, spec: Spec): SpecDir {
    SpecDir(Parsed(spec), if name in w.active then w.active[name].names else [])
  }

  /** When an event can happen. The clock stays in the codec's range; create refuses a spec that is there or
      archived on this clone's disk; an edit keeps creation instant and target; a pulled fire was made
      by an engine, so it is later than a creation. */
  ghost predicate Enabled(cx: Codec, w: World, e: Event) {
    match e
    case Ticked(now, listing) =>
      && w.pending == [] && cx.Covers(now)
      && (forall i | 0 <= i < |listing| :: listing[i] in w.active)
      && (forall i, j | 0 <= i < j < |listing| :: listing[i] != listing[j])
    case Served(_) => w.pending != []
    case Restarted => true
    case CommittedElsewhere => true
    case Created(name, spec) => Creatable(w, name) && Scheduled(spec)
    case Received(name, dir, origin) => Unused(w, name) && DirInv(cx, dir, origin)
    case Deleted(name) => name in w.active
    case Edited(name, file) => name in w.active && name in w.origin && FileInv(file, w.origin[name])
    case Pulled(name, path) =>
      name in w.active && name in w.origin
      && (FireOf(cx, path).Some? ==> w.origin[name].floor < FireOf(cx, path).value)
  }

  function Adopted(w: World, name: string, dir: SpecDir, o: Origin): World {
    w.(active := w.active[name := dir], origin := w.origin[name := o])
  }

  function After(cx: Codec, self: string, w: World, e: Event): World
    requires e.Ticked? ==> forall i | 0 <= i < |e.listing| :: e.listing[i] in w.active
    requires e.Served? ==> w.pending != []
    requires e.Edited? || e.Pulled? || e.Deleted? ==> e.name in w.active
  {
    match e
    case Ticked(now, listing) => w.(pending := Due(cx, Listing(w, listing), self, now))
    case Served(outcome) => AfterFire(cx, w, w.pending[0], outcome).(pending := w.pending[1..])
    case Restarted => w.(pending := [])
    case CommittedElsewhere => Flushed(w, {})
    case Created(name, spec) => Adopted(w, name, NewDir(w, name, spec), NewOrigin(w, name, spec))
    case Received(name, dir, origin) => Adopted(w, name, dir, origin)
    case Deleted(name) => w.(active := w.active - {name}, archived := w.archived + {name})
    case Edited(name, file) => w.(active := w.active[name := w.active[name].(file := file)])
    case Pulled(name, path) => AddName(w, name, path)
  }

  ghost function Step(cx: Codec, self: string, w: World, e: Event): Option<World> {
    if Enabled(cx, w, e) then Some(After(cx, self, w, e)) else None
  }

  /** The world after a run, if every event of it could happen. */
  ghost function Exec(cx: Codec, self: string, run: seq<Event>): Option<World> {
    if run == [] then Some(EMPTY)
    else
      var w :- Exec(cx, self, run[..|run| - 1]);
      Step(cx, self, w, run[|run| - 1])
  }

  // ----- invariant

  predicate Known(w: World, name: string) {
    (name in w.active || name in w.archived) && name in w.origin
  }

  ghost predicate DirsInv(cx: Codec, w: World) {
    && (forall n | n in w.active :: n in w.origin && DirInv(cx, w.active[n], w.origin[n]))
    && (forall n | n in w.archived :: n in w.origin)
    && (forall n | n in w.origin :: n in w.active || n in w.archived)
    && w.active.Keys !! w.archived
  }

  /** A fire of this handler, for a spec it owned, after the spec's floor. */
  predicate OwnFire(cx: Codec, self: string, w: World, f: Fired) {
    && Known(w, f.name) && cx.Writes(f.ts)
    && w.origin[f.name].floor < f.ts && self in w.origin[f.name].targets
  }

  /** Committed fires are on disk while their spec is active, and come in order per spec. */
  ghost predicate LogInv(cx: Codec, self: string, w: World) {
    && (forall i | 0 <= i < |w.log| ::
          && OwnFire(cx, self, w, w.log[i])
          && (w.log[i].name in w.active ==> FileName(cx, w.log[i].ts) in w.active[w.log[i].name].names))
    && (forall i, j | 0 <= i < j < |w.log| && w.log[i].name == w.log[j].name :: w.log[i].ts < w.log[j].ts)
  }

  /** Staged and carried fires are own fires, and none of them is committed a second time. */
  ghost predicate IndexInv(cx: Codec, self: string, w: World) {
    && (forall f | f in w.staged :: OwnFire(cx, self, w, f))
    && (forall f | f in w.carried :: OwnFire(cx, self, w, f))
    && (forall i | 0 <= i < |w.log| :: w.log[i] !in w.staged && w.log[i] !in w.carried)
  }

  /** A waiting request is its spec's only one and newer than all that was committed for it. */
  ghost predicate PendingInv(cx: Codec, self: string, w: World) {
    && (forall i, j | 0 <= i < j < |w.pending| :: w.pending[i].name != w.pending[j].name)
    && (forall i | 0 <= i < |w.pending| ::
          var r := w.pending[i];
          && OwnFire(cx, self, w, Fired(r.name, r.ts))
          && (forall j | 0 <= j < |w.log| && w.log[j].name == r.name :: w.log[j].ts < r.ts))
  }

  ghost predicate Inv(cx: Codec, self: string, w: World) {
    DirsInv(cx, w) && LogInv(cx, self, w) && IndexInv(cx, self, w) && PendingInv(cx, self, w)
  }

  // ----- the scan keeps it

  ghost predicate CameFrom(cx: Codec, r: FireRequest, listing: seq<Listed>, self: string, now: int) {
    exists i | 0 <= i < |listing| :: listing[i].Dir? && listing[i].name == r.name && Scanned(cx, listing[i].dir, self, now, r)
  }

  ghost predicate Scanned(cx: Codec, dir: SpecDir, self: string, now: int, r: FireRequest) {
    ScanOne(cx, dir, r.name, self, now) == Some(r)
  }

  /** Every request comes from one listed directory, and no directory makes two. */
  lemma {:induction false} DueNames(cx: Codec, listing: seq<Listed>, self: string, now: int, due: seq<FireRequest>)
    requires forall i | 0 <= i < |listing| :: listing[i].Dir?
    requires forall i, j | 0 <= i < j < |listing| :: listing[i].name != listing[j].name
    requires due == Due(cx, listing, self, now)
    ensures forall k | 0 <= k < |due| :: CameFrom(cx, due[k], listing, self, now)
    ensures forall k, l | 0 <= k < l < |due| :: due[k].name != due[l].name
  {
    hide Due, Found, ScanOne, CameFrom;
    DueUnfolds(cx, listing, self, now);
    if listing != [] {
      var init, last := listing[..|listing| - 1], listing[|listing| - 1];
      var before := Due(cx, init, self, now);
      DueNames(cx, init, self, now, before);
      DueGrows(cx, init, last, self, now, before);
    }
  }

  lemma DueUnfolds(cx: Codec, listing: seq<Listed>, self: string, now: int)
    ensures listing == [] ==> Due(cx, listing, self, now) == []
    ensures listing != [] ==>
      && listing == listing[..|listing| - 1] + [listing[|listing| - 1]]
      && Due(cx, listing, self, now)
         == Due(cx, listing[..|listing| - 1], self, now) + Found(cx, listing[|listing| - 1], self, now)
  {
    hide Found;
  }

  lemma DueGrows(cx: Codec, init: seq<Listed>, last: Listed, self: string, now: int, before: seq<FireRequest>)
    requires last.Dir? && forall i | 0 <= i < |init| :: init[i].Dir? && init[i].name != last.name
    requires forall k | 0 <= k < |before| :: CameFrom(cx, before[k], init, self, now)
    requires forall k, l | 0 <= k < l < |before| :: before[k].name != before[l].name
    ensures var due := before + Found(cx, last, self, now);
      && (forall k | 0 <= k < |due| :: CameFrom(cx, due[k], init + [last], self, now))
      && (forall k, l | 0 <= k < l < |due| :: due[k].name != due[l].name)
  {
    hide Found, ScanOne, CameFrom;
    FoundFrom(cx, init, last, self, now);
    forall k | 0 <= k < |before| ensures CameFrom(cx, before[k], init + [last], self, now) && before[k].name != last.name {
      StillFrom(cx, before[k], init, last, self, now);
    }
    OneMoreName(before, Found(cx, last, self, now), last.name);
  }

  lemma OneMoreName(before: seq<FireRequest>, found: seq<FireRequest>, name: string)
    requires forall k, l | 0 <= k < l < |before| :: before[k].name != before[l].name
    requires forall k | 0 <= k < |before| :: before[k].name != name
    requires |found| <= 1 && (found != [] ==> found[0].name == name)
    ensures var due := before + found; forall k, l | 0 <= k < l < |due| :: due[k].name != due[l].name
  {
  }

  lemma FoundFrom(cx: Codec, init: seq<Listed>, last: Listed, self: string, now: int)
    ensures var found := Found(cx, last, self, now);
      |found| <= 1 && (found != [] ==> found[0].name == last.name && CameFrom(cx, found[0], init + [last], self, now))
  {
    var found, listing := Found(cx, last, self, now), init + [last];
    if found != [] {
      assert listing[|init|] == last && Scanned(cx, last.dir, self, now, found[0]);
    }
  }

  lemma StillFrom(cx: Codec, r: FireRequest, init: seq<Listed>, last: Listed, self: string, now: int)
    requires CameFrom(cx, r, init, self, now) && last.Dir?
    requires forall i | 0 <= i < |init| :: init[i].Dir? && init[i].name != last.name
    ensures CameFrom(cx, r, init + [last], self, now) && r.name != last.name
  {
    hide Scanned;
    var i :| 0 <= i < |init| && init[i].Dir? && init[i].name == r.name && Scanned(cx, init[i].dir, self, now, r);
    assert (init + [last])[i] == init[i];
  }

  /** A request made against a directory is newer than everything on it, and than its floor. */
  lemma RequestIsNew(cx: Codec, dir: SpecDir, name: string, self: string, now: int, o: Origin)
    requires cx.Sound() && cx.Covers(now) && DirInv(cx, dir, o) && ScanOne(cx, dir, name, self, now).Some?
    ensures var r := ScanOne(cx, dir, name, self, now).value;
      && cx.Writes(r.ts) && r.spec.target == self == o.target && self in o.targets && o.floor < r.ts && now - GRACE < r.ts <= now
      && (forall t | cx.Writes(t) && FileName(cx, t) in dir.names :: t < r.ts)
  {
    var r := ScanOne(cx, dir, name, self, now).value;
    var occ :| Follows(dir.file.spec.next, occ);
    RequestIsFresh(cx, dir, name, self, now, occ);
    hide ScanOne;
    forall t | cx.Writes(t) && FileName(cx, t) in dir.names ensures t < r.ts {
      StemOfFileName(cx, t);
    }
    if LatestFire(cx, dir.names).Some? {
      var i :| 0 <= i < |dir.names| && FireOf(cx, dir.names[i]) == LatestFire(cx, dir.names);
    }
  }

  lemma TickKeepsInv(cx: Codec, self: string, w: World, e: Event)
    requires cx.Sound() && Inv(cx, self, w) && Enabled(cx, w, e) && e.Ticked?
    ensures Inv(cx, self, After(cx, self, w, e))
  {
    hide ScanOne, Due, DirInv;
    var listing := Listing(w, e.listing);
    var due := Due(cx, listing, self, e.now);
    DueNames(cx, listing, self, e.now, due);
    forall k | 0 <= k < |due|
      ensures var r := due[k];
        && OwnFire(cx, self, w, Fired(r.name, r.ts))
        && (forall j | 0 <= j < |w.log| && w.log[j].name == r.name :: w.log[j].ts < r.ts)
    {
      var i :| 0 <= i < |listing| && listing[i].name == due[k].name && Scanned(cx, listing[i].dir, self, e.now, due[k]);
      RequestIsNew(cx, listing[i].dir, listing[i].name, self, e.now, w.origin[e.listing[i]]);
    }
  }

  // ----- serving keeps it

  lemma AddNameKeepsDirs(cx: Codec, w: World, name: string, file: string)
    requires DirsInv(cx, w) && name in w.active
    requires FireOf(cx, file).Some? ==> w.origin[name].floor < FireOf(cx, file).value
    ensures DirsInv(cx, AddName(w, name, file))
  {
    hide FireOf, FileInv;
  }

  lemma AddNameKeepsRest(cx: Codec, self: string, w: World, name: string, path: string)
    requires LogInv(cx, self, w) && IndexInv(cx, self, w) && PendingInv(cx, self, w) && name in w.active
    ensures var v := AddName(w, name, path); LogInv(cx, self, v) && IndexInv(cx, self, v) && PendingInv(cx, self, v)
  {
    hide FileName;
  }

  lemma FlushKeepsInv(cx: Codec, self: string, w: World, own: set<Fired>)
    requires DirsInv(cx, w) && LogInv(cx, self, w) && IndexInv(cx, self, w)
    ensures var v := Flushed(w, own); DirsInv(cx, v) && LogInv(cx, self, v) && IndexInv(cx, self, v)
  {
    hide FileName, DirInv;
  }

  lemma StageKeepsInv(cx: Codec, self: string, w: World, f: Fired)
    requires DirsInv(cx, w) && LogInv(cx, self, w) && IndexInv(cx, self, w)
    requires OwnFire(cx, self, w, f) && forall j | 0 <= j < |w.log| && w.log[j].name == f.name :: w.log[j].ts < f.ts
    ensures var v := w.(staged := w.staged + {f}); DirsInv(cx, v) && LogInv(cx, self, v) && IndexInv(cx, self, v)
  {
    hide FileName, DirInv;
  }

  lemma LogKeepsInv(cx: Codec, self: string, w: World, f: Fired)
    requires DirsInv(cx, w) && LogInv(cx, self, w) && IndexInv(cx, self, w)
    requires OwnFire(cx, self, w, f) && forall j | 0 <= j < |w.log| && w.log[j].name == f.name :: w.log[j].ts < f.ts
    requires f !in w.staged && f !in w.carried
    requires f.name in w.active && FileName(cx, f.ts) in w.active[f.name].names
    ensures var v := w.(log := w.log + [f]); DirsInv(cx, v) && LogInv(cx, self, v) && IndexInv(cx, self, v)
  {
    hide FileName, DirInv;
  }

  /** Serving takes the first request, which keeps the others newer than what is committed. */
  lemma ServedPending(cx: Codec, self: string, w: World, outcome: Outcome)
    requires PendingInv(cx, self, w) && w.pending != []
    ensures PendingInv(cx, self, AfterFire(cx, w, w.pending[0], outcome).(pending := w.pending[1..]))
  {
    hide FileName;
  }

  lemma ServeKeepsInv(cx: Codec, self: string, w: World, e: Event)
    requires cx.Sound() && Inv(cx, self, w) && Enabled(cx, w, e) && e.Served?
    ensures Inv(cx, self, After(cx, self, w, e))
  {
    var r := w.pending[0];
    ServedPending(cx, self, w, e.outcome);
    ServedRest(cx, self, w, r, e.outcome);
    hide AfterFire, DirInv, FileName;
    PendingAside(cx, self, AfterFire(cx, w, r, e.outcome), w.pending[1..]);
  }

  lemma PendingAside(cx: Codec, self: string, w: World, pending: seq<FireRequest>)
    requires DirsInv(cx, w) && LogInv(cx, self, w) && IndexInv(cx, self, w)
    ensures var v := w.(pending := pending); DirsInv(cx, v) && LogInv(cx, self, v) && IndexInv(cx, self, v)
  {
    hide FileName, DirInv;
  }

  lemma ServedRest(cx: Codec, self: string, w: World, r: FireRequest, outcome: Outcome)
    requires cx.Sound() && Inv(cx, self, w)
    requires OwnFire(cx, self, w, Fired(r.name, r.ts))
    requires forall j | 0 <= j < |w.log| && w.log[j].name == r.name :: w.log[j].ts < r.ts
    ensures var v := AfterFire(cx, w, r, outcome); DirsInv(cx, v) && LogInv(cx, self, v) && IndexInv(cx, self, v)
  {
    hide DirsInv, LogInv, IndexInv, PendingInv, OwnFire;
    var f, file := Fired(r.name, r.ts), FileName(cx, r.ts);
    if r.name in w.active && !w.active[r.name].file.Missing? && file !in w.active[r.name].names && !outcome.WriteFailed? {
      OwnFireBorn(cx, self, w, f);
      AddNameKeepsDirs(cx, w, r.name, file);
      AddNameKeepsRest(cx, self, w, r.name, file);
      var v := AddName(w, r.name, file);
      OwnFireStays(cx, self, w, v, f);
      if outcome.CommitFailed? {
        var u := if outcome.fileRemoved then w else v;
        if outcome.staged && f !in w.carried {
          StageKeepsInv(cx, self, u, f);
        }
      } else {
        FlushKeepsInv(cx, self, v, {f});
        OwnFireStays(cx, self, v, Flushed(v, {f}), f);
        if f !in w.carried {
          LogKeepsInv(cx, self, Flushed(v, {f}), f);
        }
      }
    }
  }

  lemma OwnFireBorn(cx: Codec, self: string, w: World, f: Fired)
    requires cx.Sound() && OwnFire(cx, self, w, f)
    ensures FireOf(cx, FileName(cx, f.ts)) == Some(f.ts) && w.origin[f.name].floor < f.ts
  {
    StemOfFileName(cx, f.ts);
  }

  lemma OwnFireStays(cx: Codec, self: string, w: World, v: World, f: Fired)
    requires OwnFire(cx, self, w, f) && v.active.Keys == w.active.Keys && v.archived == w.archived && v.origin == w.origin
    ensures OwnFire(cx, self, v, f)
  {
  }

  // ----- everyone else keeps it

  lemma OthersKeepInv(cx: Codec, self: string, w: World, e: Event)
    requires cx.Sound() && Inv(cx, self, w) && Enabled(cx, w, e) && !e.Ticked? && !e.Served?
    ensures Inv(cx, self, After(cx, self, w, e))
  {
    hide FileName, FireOf, Follows, Scheduled;
    if e.Pulled? {
      AddNameKeepsDirs(cx, w, e.name, e.path);
      AddNameKeepsRest(cx, self, w, e.name, e.path);
    } else if e.Deleted? {
      DeleteKeepsInv(cx, self, w, e.name);
    } else if e.Created? {
      NewDirInv(cx, w, e.name, e.spec);
      AdoptKeepsInv(cx, self, w, e.name, NewDir(w, e.name, e.spec), NewOrigin(w, e.name, e.spec));
    } else if e.Received? {
      AdoptKeepsInv(cx, self, w, e.name, e.dir, e.origin);
    } else if e.CommittedElsewhere? {
      FlushKeepsInv(cx, self, w, {});
    } else {
      EditKeepsInv(cx, self, w, e);
    }
  }

  lemma DeleteKeepsInv(cx: Codec, self: string, w: World, name: string)
    requires Inv(cx, self, w) && name in w.active
    ensures Inv(cx, self, w.(active := w.active - {name}, archived := w.archived + {name}))
  {
    hide FileName, DirInv;
  }

  /** A spec arrives where the name is free, or over the fires of one whose spec is gone. */
  lemma AdoptKeepsInv(cx: Codec, self: string, w: World, name: string, dir: SpecDir, o: Origin)
    requires Inv(cx, self, w) && name !in w.archived && DirInv(cx, dir, o)
    requires name in w.active ==>
      dir.names == w.active[name].names && o.floor <= w.origin[name].floor && w.origin[name].targets <= o.targets
    ensures Inv(cx, self, Adopted(w, name, dir, o))
  {
    hide FileName, DirInv, Scheduled;
  }

  lemma NewDirInv(cx: Codec, w: World, name: string, spec: Spec)
    requires DirsInv(cx, w) && Creatable(w, name) && Scheduled(spec)
    ensures DirInv(cx, NewDir(w, name, spec), NewOrigin(w, name, spec))
    ensures var o := NewOrigin(w, name, spec);
      name in w.active ==> o.floor <= w.origin[name].floor && w.origin[name].targets <= o.targets
  {
    hide FireOf, Scheduled;
    if name in w.active {
      assert DirInv(cx, w.active[name], w.origin[name]);
    }
  }

  lemma EditKeepsInv(cx: Codec, self: string, w: World, e: Event)
    requires Inv(cx, self, w) && Enabled(cx, w, e) && (e.Edited? || e.Restarted?)
    ensures Inv(cx, self, After(cx, self, w, e))
  {
    hide FileName, DirInv, FileInv;
    if e.Edited? {
      EditedDir(cx, w.active[e.name], w.origin[e.name], e.file);
      EditedRest(cx, self, w, e.name, e.file);
    }
  }

  lemma EditedDir(cx: Codec, dir: SpecDir, o: Origin, file: SpecFile)
    requires DirInv(cx, dir, o) && FileInv(file, o)
    ensures DirInv(cx, dir.(file := file), o)
  {
    hide FileInv, FireOf;
  }

  lemma EditedRest(cx: Codec, self: string, w: World, name: string, file: SpecFile)
    requires LogInv(cx, self, w) && IndexInv(cx, self, w) && PendingInv(cx, self, w) && name in w.active
    ensures var v := w.(active := w.active[name := w.active[name].(file := file)]);
      LogInv(cx, self, v) && IndexInv(cx, self, v) && PendingInv(cx, self, v)
  {
    hide FileName;
  }

  lemma StepKeepsInv(cx: Codec, self: string, w: World, e: Event)
    requires cx.Sound() && Inv(cx, self, w) && Enabled(cx, w, e)
    ensures Inv(cx, self, After(cx, self, w, e))
  {
    hide Inv, After;
    if e.Ticked? {
      TickKeepsInv(cx, self, w, e);
    } else if e.Served? {
      ServeKeepsInv(cx, self, w, e);
    } else {
      OthersKeepInv(cx, self, w, e);
    }
  }

  lemma {:induction false} RunKeepsInv(cx: Codec, self: string, run: seq<Event>)
    requires cx.Sound() && Exec(cx, self, run).Some?
    ensures Inv(cx, self, Exec(cx, self, run).value)
  {
    hide Inv, After, Enabled;
    if run == [] {
      EmptyInv(cx, self);
    } else {
      RunKeepsInv(cx, self, run[..|run| - 1]);
      StepKeepsInv(cx, self, Exec(cx, self, run[..|run| - 1]).value, run[|run| - 1]);
    }
  }

  lemma EmptyInv(cx: Codec, self: string)
    ensures Inv(cx, self, EMPTY)
  {
  }

  // ----- main results

  /** In every run no spec is committed twice for one instant: the fires the engine commits are in strictly
      increasing order and later than the first creation of the name, and none of them is a fire that
      another commit had already carried out of the index. */
  lemma CommittedInOrder(cx: Codec, self: string, run: seq<Event>, i: nat, j: nat)
    requires cx.Sound() && Exec(cx, self, run).Some?
    requires i <= j < |Exec(cx, self, run).value.log|
    ensures var w := Exec(cx, self, run).value;
      && w.log[i] !in w.carried
      && w.log[i].name in w.origin && w.origin[w.log[i].name].floor < w.log[i].ts
      && (i < j && w.log[i].name == w.log[j].name ==> w.log[i].ts < w.log[j].ts)
  {
    RunKeepsInv(cx, self, run);
  }

  /** Every request a scan makes in a reachable store: its instant is in the last two minutes and after
      every fire file on disk, so the scan's check for an existing file is never what stops it; the spec
      is this clone's own; and it is after the spec's creation exactly when no occurrence lies between
      the anchor and the creation, as when every fire on disk is later than the creation. */
  lemma ScanIsSafe(cx: Codec, self: string, run: seq<Event>, name: string, now: int, occ: int -> bool)
    requires cx.Sound() && cx.Covers(now) && Exec(cx, self, run).Some?
    requires var w := Exec(cx, self, run).value;
      name in w.active && w.active[name].file.Parsed? && Follows(w.active[name].file.spec.next, occ)
    ensures var w := Exec(cx, self, run).value;
      var dir := w.active[name];
      var anchor := Clamp(RawAnchor(cx, dir), now);
      var next := dir.file.spec.next(anchor);
      && (next.Some? && next.value <= now ==> FileName(cx, next.value) !in dir.names)
      && (forall r | ScanOne(cx, dir, name, self, now) == Some(r) ::
           && now - GRACE < r.ts <= now
           && name in w.origin && w.origin[name].born == r.spec.createdAt && w.origin[name].floor < r.ts
           && w.origin[name].target == r.spec.target == self
           && (forall i | 0 <= i < |dir.names| && FireOf(cx, dir.names[i]).Some? :: FireOf(cx, dir.names[i]).value < r.ts)
           && (r.spec.createdAt < r.ts <==> forall o | anchor < o <= r.spec.createdAt :: !occ(o))
           && ((forall i | 0 <= i < |dir.names| && FireOf(cx, dir.names[i]).Some? ::
                  r.spec.createdAt < FireOf(cx, dir.names[i]).value) ==> r.spec.createdAt < r.ts))
  {
    RunKeepsInv(cx, self, run);
    var w := Exec(cx, self, run).value;
    var dir := w.active[name];
    assert DirInv(cx, dir, w.origin[name]);
    var next := dir.file.spec.next(Clamp(RawAnchor(cx, dir), now));
    if next.Some? && next.value <= now {
      LaterHasNoFile(cx, dir.names, next.value);
    }
    hide Exec, Inv;
    if ScanOne(cx, dir, name, self, now).Some? {
      var r := ScanOne(cx, dir, name, self, now).value;
      RequestIsNew(cx, dir, name, self, now, w.origin[name]);
      RequestIsFresh(cx, dir, name, self, now, occ);
      ScanMeaning(cx, dir, name, self, now, occ);
      assert IsDue(occ, Clamp(RawAnchor(cx, dir), now), now, r.ts);
      AfterCreation(cx, dir, r);
    }
  }

  lemma AfterCreation(cx: Codec, dir: SpecDir, r: FireRequest)
    requires dir.file == Parsed(r.spec)
    requires forall i | 0 <= i < |dir.names| && FireOf(cx, dir.names[i]).Some? :: FireOf(cx, dir.names[i]).value < r.ts
    requires LatestFire(cx, dir.names).None? ==> r.spec.createdAt < r.ts
    ensures (forall i | 0 <= i < |dir.names| && FireOf(cx, dir.names[i]).Some? ::
               r.spec.createdAt < FireOf(cx, dir.names[i]).value) ==> r.spec.createdAt < r.ts
  {
    if LatestFire(cx, dir.names).Some? {
      var i :| 0 <= i < |dir.names| && FireOf(cx, dir.names[i]) == LatestFire(cx, dir.names);
    }
  }

  // ----- a run in detail

  function Minutely(self: string, createdAt: int): Spec {
    Spec(self, true, createdAt, EveryMinute)
  }

  const NOW: int := 3 * MINUTE - 1

  /** The clone's world once it has created the spec, and once it has scanned. */
  function After1(self: string): World {
    Adopted(EMPTY, "n", SpecDir(Parsed(Minutely(self, 0)), []), Origin(0, self, 0, {self}))
  }

  function After2(self: string): World {
    After1(self).(pending := [FireRequest("n", Minutely(self, 0), MINUTE)])
  }

  /** And once it has committed the fire. */
  function After3(cx: Codec, self: string): World {
    Adopted(EMPTY, "n", SpecDir(Parsed(Minutely(self, 0)), [FileName(cx, MINUTE)]), Origin(0, self, 0, {self}))
      .(log := [Fired("n", MINUTE)])
  }

  lemma MinutelyScheduled(self: string, createdAt: int)
    ensures Scheduled(Minutely(self, createdAt))
  {
    EveryMinuteFollows();
    assert Follows(Minutely(self, createdAt).next, OnTheMinute);
  }

  lemma Creates1(cx: Codec, self: string)
    ensures Enabled(cx, EMPTY, Created("n", Minutely(self, 0)))
    ensures After(cx, self, EMPTY, Created("n", Minutely(self, 0))) == After1(self)
  {
    MinutelyScheduled(self, 0);
  }

  lemma ScansOne(cx: Codec, self: string)
    requires cx.Sound() && cx.Covers(NOW)
    ensures ScanOne(cx, SpecDir(Parsed(Minutely(self, 0)), []), "n", self, NOW) == Some(FireRequest("n", Minutely(self, 0), MINUTE))
  {
    assert LatestFire(cx, []) == None;
    assert Clamp(0, NOW) == MINUTE - 1;
    assert EveryMinute(MINUTE - 1) == Some(MINUTE);
  }

  lemma Ticks2(cx: Codec, self: string)
    requires cx.Sound() && cx.Covers(NOW)
    ensures Enabled(cx, After1(self), Ticked(NOW, ["n"]))
    ensures After(cx, self, After1(self), Ticked(NOW, ["n"])) == After2(self)
  {
    ScansOne(cx, self);
    hide ScanOne;
    var w := After1(self);
    var listing := Listing(w, ["n"]);
    assert listing == [Dir("n", SpecDir(Parsed(Minutely(self, 0)), []))];
    assert listing[..0] == [] && Due(cx, [], self, NOW) == [];
    assert Due(cx, listing, self, NOW) == [] + Found(cx, listing[0], self, NOW);
  }

  lemma Serves3(cx: Codec, self: string)
    ensures Enabled(cx, After2(self), Served(Committed))
    ensures After(cx, self, After2(self), Served(Committed)) == After3(cx, self)
  {
    hide FileName;
    var w := After2(self);
    var v := AfterFire(cx, w, w.pending[0], Committed);
    assert [] + [FileName(cx, MINUTE)] == [FileName(cx, MINUTE)] && [] + [Fired("n", MINUTE)] == [Fired("n", MINUTE)];
    assert v.active == After3(cx, self).active && w.pending[1..] == [];
    assert v.carried == {} && v.staged == {};
  }

  lemma ExecSnoc(cx: Codec, self: string, run: seq<Event>, e: Event)
    requires Exec(cx, self, run).Some?
    ensures Exec(cx, self, run + [e]) == Step(cx, self, Exec(cx, self, run).value, e)
  {
    hide Step;
    assert (run + [e])[..|run|] == run;
  }

  function FiresOnce(self: string): seq<Event> {
    [] + [Created("n", Minutely(self, 0))] + [Ticked(NOW, ["n"])] + [Served(Committed)]
  }

  lemma FiredOnce(cx: Codec, self: string)
    requires cx.Sound() && cx.Covers(NOW)
    ensures Exec(cx, self, FiresOnce(self)) == Some(After3(cx, self))
  {
    Creates1(cx, self);
    Ticks2(cx, self);
    Serves3(cx, self);
    assert Exec(cx, self, []) == Some(EMPTY);
    hide Exec, After, Enabled, After1, After2, After3;
    var r1 := [] + [Created("n", Minutely(self, 0))];
    ExecSnoc(cx, self, [], Created("n", Minutely(self, 0)));
    ExecSnoc(cx, self, r1, Ticked(NOW, ["n"]));
    ExecSnoc(cx, self, r1 + [Ticked(NOW, ["n"])], Served(Committed));
  }

  /** Then its `spec.yaml` goes and the name is created again, half a minute past the second minute. */
  function Recreates(self: string): seq<Event> {
    FiresOnce(self) + [Edited("n", Missing)] + [Created("n", Minutely(self, 150 * SECOND))]
  }

  lemma Recreated(cx: Codec, self: string)
    requires cx.Sound() && cx.Covers(NOW)
    ensures Exec(cx, self, Recreates(self)).Some?
    ensures var w := Exec(cx, self, Recreates(self)).value;
      "n" in w.active && w.active["n"] == SpecDir(Parsed(Minutely(self, 150 * SECOND)), [FileName(cx, MINUTE)])
  {
    FiredOnce(cx, self);
    MinutelyScheduled(self, 150 * SECOND);
    var w3 := After3(cx, self);
    assert Enabled(cx, w3, Edited("n", Missing));
    var w4 := After(cx, self, w3, Edited("n", Missing));
    assert w4.active["n"] == SpecDir(Missing, [FileName(cx, MINUTE)]);
    assert Enabled(cx, w4, Created("n", Minutely(self, 150 * SECOND)));
    hide Exec, FileName;
    ExecSnoc(cx, self, FiresOnce(self), Edited("n", Missing));
    ExecSnoc(cx, self, FiresOnce(self) + [Edited("n", Missing)], Created("n", Minutely(self, 150 * SECOND)));
  }

  /** The next scan fires the second minute, which is before the new spec's creation: with an old fire file
      present the creation instant is not looked at. */
  lemma RecreatedFiresEarly(cx: Codec, self: string)
    requires cx.Sound() && cx.Covers(NOW)
    ensures Exec(cx, self, Recreates(self)).Some?
    ensures var w := Exec(cx, self, Recreates(self)).value;
      && "n" in w.active
      && var r := ScanOne(cx, w.active["n"], "n", self, NOW);
      r.Some? && r.value.ts == 2 * MINUTE < r.value.spec.createdAt
  {
    Recreated(cx, self);
    hide Exec;
    StemOfFileName(cx, MINUTE);
    var names := [FileName(cx, MINUTE)];
    assert names[..0] == [] && LatestFire(cx, []) == None;
    assert LatestFire(cx, names) == Some(MINUTE);
    assert Clamp(MINUTE, NOW) == MINUTE && EveryMinute(MINUTE) == Some(2 * MINUTE);
    LaterHasNoFile(cx, names, 2 * MINUTE);
  }
}
