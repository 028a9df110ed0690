/** The single-instance protocol: any number of clients probe the advisory lock, any number of
    candidate daemons try to take it, and the holder looks after the pid, socket and port files.
    Every file operation is one step, so all interleavings and crashes are covered. */
module Lifecycle {
  import opened Results

  type Pid = nat

  datatype Artifact = PidFile | SockFile | PortFile

  /** The run directory: for each artifact the process that wrote it, if the file exists, and the
      process holding the exclusive lock. */
  datatype RunDir = RunDir(lock: Option<Pid>, pid: Option<Pid>, sock: Option<Pid>, port: Option<Pid>)

  function Removed(d: RunDir, a: Artifact): RunDir {
    match a
    case PidFile => d.(pid := None)
    case SockFile => d.(sock := None)
    case PortFile => d.(port := None)
  }

  const ARTIFACTS: seq<Artifact> := [PidFile, SockFile, PortFile]

  function Cleared(d: RunDir): RunDir {
    RunDir(d.lock, None, None, None)
  }

  /** The first `k` artifacts gone. */
  function ClearedUpTo(d: RunDir, k: nat): RunDir {
    RunDir(d.lock, if k > 0 then None else d.pid, if k > 1 then None else d.sock, if k > 2 then None else d.port)
  }

  /** How many artifacts can be removed before one fails. */
  function Removable(removeOk: Artifact -> bool): nat {
    if !removeOk(PidFile) then 0 else if !removeOk(SockFile) then 1 else if !removeOk(PortFile) then 2 else 3
  }

  predicate SameFiles(a: RunDir, b: RunDir) {
    a.pid == b.pid && a.sock == b.sock && a.port == b.port
  }

  // ----- the daemon's own calls, run without interruption

  class DaemonLifecycle {
    const me: Pid
    var dir: RunDir

    constructor (me: Pid, dir: RunDir)
      ensures this.me == me && this.dir == dir
    {
      this.me := me;
      this.dir := dir;
    }

    /** Stops at the first file that cannot be removed. */
    method PrepareStaleArtifacts(removeOk: Artifact -> bool) returns (ok: bool)
      modifies this
      ensures ok <==> Removable(removeOk) == 3
      ensures dir == ClearedUpTo(old(dir), Removable(removeOk))
    {
      for k := 0 to 3
        invariant dir == ClearedUpTo(old(dir), k)
        invariant k <= Removable(removeOk)
      {
        if !removeOk(ARTIFACTS[k]) {
          return false;
        }
        dir := Removed(dir, ARTIFACTS[k]);
      }
      return true;
    }

    method WritePid()
      modifies this
      ensures dir == old(dir).(pid := Some(me))
    {
      dir := dir.(pid := Some(me));
    }

    /** Refused, with nothing touched, while anyone holds the lock. An I/O error after that drops the lock
        again and leaves the stale files it had already removed removed. */
    method Acquire(removeOk: Artifact -> bool, writeOk: bool) returns (ok: bool)
      modifies this
      ensures ok <==> old(dir).lock == None && Removable(removeOk) == 3 && writeOk
      ensures dir == if ok then RunDir(Some(me), Some(me), None, None)
                     else if old(dir).lock == None then ClearedUpTo(old(dir), Removable(removeOk))
                     else old(dir)
    {
      if dir.lock != None {
        return false;
      }
      dir := dir.(lock := Some(me));
      var prepared := PrepareStaleArtifacts(removeOk);
      if !prepared || !writeOk {
        dir := dir.(lock := None);
        return false;
      }
      WritePid();
      return true;
    }

    /** Only the process named in the pid file removes anything. */
    method Cleanup()
      modifies this
      ensures dir == if old(dir).pid == Some(me) then Cleared(old(dir)) else old(dir)
    {
      if dir.pid != Some(me) {
        return;
      }
      dir := Removed(dir, PidFile);
      dir := Removed(dir, SockFile);
      dir := Removed(dir, PortFile);
    }
  }

  // ----- the protocol, one file operation at a time

  datatype Cleaning = NotCleaning | Removing(next: nat)

  /** Where a process is. `Serving` still has its tasks; `lease` is false once `main` has returned
      and dropped the lock while those tasks run on. */
  datatype Phase =
    | Client
    | Probing
    | Candidate
    | Preparing(next: nat)
    | Writing
    | Serving(lease: bool, listening: bool, cleaning: Cleaning)

  datatype World = World(procs: map<Pid, Phase>, dir: RunDir)

  datatype Action =
    | StartClient
    | StartCandidate
    | Probe          // a client's try-lock
    | Release        // the client drops the probed lock
    | TryLock        // a candidate's try-lock
    | RemoveStale
    | WritePid
    | WritePort
    | UnlinkSock
    | BindSock
    | BeginCleanup   // the ownership check
    | RemoveOwn
    | ReturnEarly    // `main` returns with an error; its tasks are still running
    | Die            // crash, kill, or an error before any task was started

  function PhaseOf(w: World, p: Pid): Option<Phase> {
    if p in w.procs then Some(w.procs[p]) else None
  }

  function Move(w: World, p: Pid, ph: Phase): World {
    w.(procs := w.procs[p := ph])
  }

  predicate Holds(ph: Phase) {
    ph.Probing? || ph.Preparing? || ph.Writing? || (ph.Serving? && ph.lease)
  }

  /** The process ends and the kernel drops its lock. */
  function Gone(w: World, p: Pid): World
    requires p in w.procs
  {
    World(w.procs - {p}, if Holds(w.procs[p]) then w.dir.(lock := None) else w.dir)
  }

  function Next(w: World, p: Pid, a: Action): Option<World> {
    match (PhaseOf(w, p), a)
    case (None, StartClient) => Some(Move(w, p, Client))
    case (None, StartCandidate) => Some(Move(w, p, Candidate))
    case (Some(Client), Probe) =>
      Some(if w.dir.lock == None then Move(w, p, Probing).(dir := w.dir.(lock := Some(p))) else w)
    case (Some(Probing), Release) => Some(Move(w, p, Client).(dir := w.dir.(lock := None)))
    case (Some(Candidate), TryLock) =>
      Some(if w.dir.lock == None then Move(w, p, Preparing(0)).(dir := w.dir.(lock := Some(p))) else Gone(w, p))
    case (Some(Preparing(k)), RemoveStale) =>
      if k < 3 then Some(Move(w, p, if k < 2 then Preparing(k + 1) else Writing).(dir := Removed(w.dir, ARTIFACTS[k])))
      else None
    case (Some(Writing), WritePid) =>
      Some(Move(w, p, Serving(true, false, NotCleaning)).(dir := w.dir.(pid := Some(p))))
    case (Some(Serving(true, _, _)), WritePort) => Some(w.(dir := w.dir.(port := Some(p))))
    case (Some(Serving(true, false, _)), UnlinkSock) => Some(w.(dir := w.dir.(sock := None)))
    case (Some(Serving(true, false, c)), BindSock) =>
      if w.dir.sock == None then Some(Move(w, p, Serving(true, true, c)).(dir := w.dir.(sock := Some(p)))) else None
    case (Some(Serving(l, s, NotCleaning)), BeginCleanup) =>
      Some(if w.dir.pid == Some(p) then Move(w, p, Serving(l, s, Removing(0))) else Gone(w, p))
    case (Some(Serving(l, s, Removing(k))), RemoveOwn) =>
      if k < 3 then
        var v := w.(dir := Removed(w.dir, ARTIFACTS[k]));
        Some(if k < 2 then Move(v, p, Serving(l, s, Removing(k + 1))) else Gone(v, p))
      else None
    case (Some(Serving(true, _, c)), ReturnEarly) =>
      Some(Move(w, p, Serving(false, false, c)).(dir := w.dir.(lock := None)))
    case (Some(_), Die) => Some(Gone(w, p))
    case _ => None
  }

  datatype Step = Step(who: Pid, action: Action)

  /** The world after a run, if every step of it was possible. */
  function ExecFrom(start: World, run: seq<Step>): Option<World> {
    if run == [] then Some(start)
    else
      var w :- ExecFrom(start, run[..|run| - 1]);
      Next(w, run[|run| - 1].who, run[|run| - 1].action)
  }

  /** Runs start with no process, a free lock, and whatever files an earlier boot left behind. */
  function Exec(files: RunDir, run: seq<Step>): Option<World> {
    ExecFrom(World(map[], files.(lock := None)), run)
  }

  // ----- every run

  /** The lock is held by exactly the process that thinks it holds it. */
  predicate LockInv(w: World) {
    && (forall p | p in w.procs :: Holds(w.procs[p]) <==> w.dir.lock == Some(p))
    && (w.dir.lock.Some? ==> w.dir.lock.value in w.procs)
    && (forall p | p in w.procs && w.procs[p].Serving? && w.procs[p].listening :: w.procs[p].lease)
  }

  /** A step changes nobody else's phase. */
  lemma NextIsLocal(w: World, p: Pid, a: Action, q: Pid)
    requires Next(w, p, a).Some? && q != p
    ensures var v := Next(w, p, a).value;
      (q in v.procs <==> q in w.procs) && (q in v.procs ==> v.procs[q] == w.procs[q])
  {
  }

  /** The lock passes only between free and the stepping process, in line with its phase. */
  lemma NextMovesLock(w: World, p: Pid, a: Action)
    requires Next(w, p, a).Some?
    requires p in w.procs ==> (Holds(w.procs[p]) <==> w.dir.lock == Some(p))
    requires p !in w.procs ==> w.dir.lock != Some(p)
    requires p in w.procs && w.procs[p].Serving? && w.procs[p].listening ==> w.procs[p].lease
    ensures var v := Next(w, p, a).value;
      && (v.dir.lock == w.dir.lock || (v.dir.lock == None && w.dir.lock == Some(p)) || (v.dir.lock == Some(p) && w.dir.lock == None))
      && (p in v.procs ==> (Holds(v.procs[p]) <==> v.dir.lock == Some(p)))
      && (p !in v.procs ==> v.dir.lock != Some(p))
      && (p in v.procs && v.procs[p].Serving? && v.procs[p].listening ==> v.procs[p].lease)
  {
  }

  lemma NextKeepsLock(w: World, p: Pid, a: Action)
    requires LockInv(w) && Next(w, p, a).Some?
    ensures LockInv(Next(w, p, a).value)
  {
    hide Next, Holds;
    var v := Next(w, p, a).value;
    NextMovesLock(w, p, a);
    forall q | q != p ensures (q in v.procs <==> q in w.procs) && (q in v.procs ==> v.procs[q] == w.procs[q]) {
      NextIsLocal(w, p, a, q);
    }
  }

  lemma {:induction false} RunKeepsLock(files: RunDir, run: seq<Step>)
    requires Exec(files, run).Some?
    ensures LockInv(Exec(files, run).value)
  {
    if run != [] {
      RunKeepsLock(files, run[..|run| - 1]);
      var last := run[|run| - 1];
      NextKeepsLock(Exec(files, run[..|run| - 1]).value, last.who, last.action);
      hide Next, LockInv;
    }
  }

  /** A process whose `main` returned, already past the ownership check of its cleanup. */
  predicate Straggler(ph: Phase) {
    ph.Serving? && !ph.lease && ph.cleaning.Removing?
  }

  predicate IsDaemonHolder(w: World, p: Pid) {
    p in w.procs && Holds(w.procs[p]) && !w.procs[p].Probing? && w.dir.lock == Some(p)
  }

  lemma StepTouches(w: World, p: Pid, a: Action)
    requires LockInv(w) && Next(w, p, a).Some?
    ensures !SameFiles(w.dir, Next(w, p, a).value.dir) ==>
      IsDaemonHolder(w, p) || (p in w.procs && Straggler(w.procs[p]))
  {
  }

  /** In every run at most one process holds the lease, a probe that holds the lock keeps daemons
      out, and the next step changes a file only if it is the live lease holder's, or a straggler's. */
  lemma OnlyTheHolderTouches(files: RunDir, run: seq<Step>, p: Pid, q: Pid, a: Action)
    requires Exec(files, run).Some?
    ensures var w := Exec(files, run).value;
      && (p in w.procs && q in w.procs && Holds(w.procs[p]) && Holds(w.procs[q]) ==> p == q)
      && (Next(w, p, a).Some? && !SameFiles(w.dir, Next(w, p, a).value.dir) ==>
            IsDaemonHolder(w, p) || (p in w.procs && Straggler(w.procs[p])))
  {
    RunKeepsLock(files, run);
    var w := Exec(files, run).value;
    if Next(w, p, a).Some? {
      StepTouches(w, p, a);
    }
  }

  predicate Exists(d: RunDir, a: Artifact) {
    match a
    case PidFile => d.pid.Some?
    case SockFile => d.sock.Some?
    case PortFile => d.port.Some?
  }

  /** A straggler about to remove a file that is there. */
  predicate AboutToStray(w: World, p: Pid) {
    && p in w.procs && Straggler(w.procs[p])
    && w.procs[p].cleaning.next < 3 && Exists(w.dir, ARTIFACTS[w.procs[p].cleaning.next])
  }

  /** A step that changes a file although the process does not hold the lease. */
  predicate Strays(w: World, p: Pid, a: Action) {
    Next(w, p, a).Some? && !SameFiles(w.dir, Next(w, p, a).value.dir) && w.dir.lock != Some(p)
  }

  lemma StraysExactly(w: World, p: Pid, a: Action)
    requires LockInv(w)
    ensures Strays(w, p, a) <==> a == RemoveOwn && AboutToStray(w, p)
  {
    if Next(w, p, a).Some? {
      StepTouches(w, p, a);
    }
  }

  /** After every run, a process that is not the lease holder can change a file exactly if it is a straggler
      whose next file is still, or again, there. */
  lemma UnsafeExactly(files: RunDir, run: seq<Step>, p: Pid)
    requires Exec(files, run).Some?
    ensures var w := Exec(files, run).value; (exists a :: Strays(w, p, a)) <==> AboutToStray(w, p)
  {
    hide Strays, AboutToStray;
    RunKeepsLock(files, run);
    var w := Exec(files, run).value;
    forall a ensures Strays(w, p, a) <==> a == RemoveOwn && AboutToStray(w, p) {
      StraysExactly(w, p, a);
    }
    assert Strays(w, p, RemoveOwn) <==> AboutToStray(w, p);
  }

  /** Step `k` of a run was taken by a process without the lease and changed a file. */
  predicate StrayedAt(files: RunDir, run: seq<Step>, k: nat)
    requires k < |run|
  {
    Exec(files, run[..k]).Some? && Strays(Exec(files, run[..k]).value, run[k].who, run[k].action)
  }

  /** A run is safe, every file change being the live lease holder's, exactly if no straggler in it removes
      a file that is there. */
  lemma RunIsSafeExactly(files: RunDir, run: seq<Step>)
    ensures (exists k | 0 <= k < |run| :: StrayedAt(files, run, k))
      <==> exists k | 0 <= k < |run| ::
             && run[k].action == RemoveOwn && Exec(files, run[..k]).Some?
             && AboutToStray(Exec(files, run[..k]).value, run[k].who)
  {
    hide Exec, Strays, AboutToStray;
    forall k | 0 <= k < |run|
      ensures StrayedAt(files, run, k)
        <==> && run[k].action == RemoveOwn && Exec(files, run[..k]).Some?
             && AboutToStray(Exec(files, run[..k]).value, run[k].who)
    {
      if Exec(files, run[..k]).Some? {
        RunKeepsLock(files, run[..k]);
        StraysExactly(Exec(files, run[..k]).value, run[k].who, run[k].action);
      }
    }
  }

  // ----- runs in which no daemon outlives its lease

  predicate NoEarlyReturn(run: seq<Step>) {
    forall i | 0 <= i < |run| :: run[i].action != ReturnEarly
  }

  /** Serving daemons hold the lease and, until their own cleanup, are named by the pid file. */
  predicate NamedInv(w: World) {
    && LockInv(w)
    && (forall p | p in w.procs && w.procs[p].Serving? ::
          w.procs[p].lease && (w.procs[p].cleaning.NotCleaning? ==> w.dir.pid == Some(p)))
  }

  lemma NextKeepsNamed(w: World, p: Pid, a: Action)
    requires NamedInv(w) && a != ReturnEarly && Next(w, p, a).Some?
    ensures NamedInv(Next(w, p, a).value)
  {
    var v := Next(w, p, a).value;
    NextKeepsLock(w, p, a);
    NextNames(w, p, a);
    StepTouches(w, p, a);
    hide Next, LockInv;
    forall q | q != p ensures (q in v.procs <==> q in w.procs) && (q in v.procs ==> v.procs[q] == w.procs[q]) {
      NextIsLocal(w, p, a, q);
    }
    forall q | q in w.procs && q != p && w.procs[q].Serving? ensures v.dir.pid == w.dir.pid {
      ServingExcludes(w, p, q);
    }
  }

  lemma NextNames(w: World, p: Pid, a: Action)
    requires NamedInv(w) && a != ReturnEarly && Next(w, p, a).Some?
    ensures var v := Next(w, p, a).value;
      p in v.procs && v.procs[p].Serving? ==> v.procs[p].lease && (v.procs[p].cleaning.NotCleaning? ==> v.dir.pid == Some(p))
  {
  }

  lemma ServingExcludes(w: World, p: Pid, q: Pid)
    requires NamedInv(w) && q in w.procs && w.procs[q].Serving? && p != q
    ensures !IsDaemonHolder(w, p) && !(p in w.procs && Straggler(w.procs[p]))
  {
  }

  lemma {:induction false} RunKeepsNamed(files: RunDir, run: seq<Step>)
    requires Exec(files, run).Some? && NoEarlyReturn(run)
    ensures NamedInv(Exec(files, run).value)
  {
    if run != [] {
      var init, last := run[..|run| - 1], run[|run| - 1];
      RunKeepsNamed(files, init);
      hide Next, NamedInv;
      NextKeepsNamed(Exec(files, init).value, last.who, last.action);
    }
  }

  /** A client that connects talks to a listening process. */
  predicate Ready(w: World, p: Pid) {
    w.dir.sock == Some(p) && p in w.procs && w.procs[p].Serving? && w.procs[p].listening
  }

  /** Then only the live lease holder ever removes or rewrites a file, whoever answers on the socket
      is that holder, and a daemon that has not begun its own cleanup is still named by the pid file. */
  lemma ProtocolSafety(files: RunDir, run: seq<Step>, p: Pid, a: Action)
    requires Exec(files, run).Some? && NoEarlyReturn(run)
    ensures var w := Exec(files, run).value;
      && (Next(w, p, a).Some? && !SameFiles(w.dir, Next(w, p, a).value.dir) ==> IsDaemonHolder(w, p))
      && (Ready(w, p) ==> IsDaemonHolder(w, p))
      && (p in w.procs && w.procs[p].Serving? && w.procs[p].cleaning.NotCleaning? ==> w.dir.pid == Some(p))
  {
    RunKeepsNamed(files, run);
    var w := Exec(files, run).value;
    if Next(w, p, a).Some? {
      StepTouches(w, p, a);
    }
  }

  // ----- a daemon that outlives its lease

  lemma {:induction false} ExecSplits(start: World, a: seq<Step>, b: seq<Step>)
    ensures ExecFrom(start, a + b)
         == if ExecFrom(start, a).Some? then ExecFrom(ExecFrom(start, a).value, b) else None
  {
    hide Next;
    if b == [] {
      assert a + b == a;
    } else {
      ExecSplits(start, a, b[..|b| - 1]);
      assert (a + b)[..|a + b| - 1] == a + b[..|b| - 1];
    }
  }

  lemma ExecOne(start: World, s: Step)
    ensures ExecFrom(start, [s]) == Next(start, s.who, s.action)
  {
    hide Next;
    assert [s][..0] == [];
    assert ExecFrom(start, []) == Some(start);
  }

  function Steps(p: Pid, actions: seq<Action>): seq<Step> {
    seq(|actions|, i requires 0 <= i < |actions| => Step(p, actions[i]))
  }

  /** Runs of one process, an action at a time. */
  lemma ExecAction(start: World, p: Pid, actions: seq<Action>)
    requires actions != []
    ensures ExecFrom(start, Steps(p, actions))
         == var w := Next(start, p, actions[0]);
            if w.Some? then ExecFrom(w.value, Steps(p, actions[1..])) else None
  {
    hide Next;
    assert Steps(p, actions) == [Step(p, actions[0])] + Steps(p, actions[1..]);
    ExecSplits(start, [Step(p, actions[0])], Steps(p, actions[1..]));
    ExecOne(start, Step(p, actions[0]));
  }

  const BOOT: seq<Action> := [TryLock, RemoveStale, RemoveStale, RemoveStale, WritePid]

  /** The booting candidate before action `k`. */
  function Booting(w: World, p: Pid, k: nat): World {
    World(
      if k == 0 then w.procs
      else w.procs[p := if k < 4 then Preparing(k - 1) else if k == 4 then Writing else Serving(true, false, NotCleaning)],
      if k == 0 then w.dir
      else RunDir(Some(p), if k == 1 then w.dir.pid else if k < 5 then None else Some(p),
                  if k <= 2 then w.dir.sock else None, if k <= 3 then w.dir.port else None))
  }

  lemma BootStep(w: World, p: Pid, k: nat)
    requires p in w.procs && w.procs[p] == Candidate && w.dir.lock == None && k < 5
    ensures Next(Booting(w, p, k), p, BOOT[k]) == Some(Booting(w, p, k + 1))
  {
    var v := Booting(w, p, k);
    assert v.procs[p := Booting(w, p, k + 1).procs[p]] == Booting(w, p, k + 1).procs;
  }

  lemma {:induction false} BootFrom(w: World, p: Pid, k: nat)
    requires p in w.procs && w.procs[p] == Candidate && w.dir.lock == None && k <= 5
    ensures ExecFrom(Booting(w, p, k), Steps(p, BOOT[k..])) == Some(Booting(w, p, 5))
    decreases 5 - k
  {
    hide Next, Booting;
    if k == 5 {
      assert Steps(p, BOOT[k..]) == [];
    } else {
      BootStep(w, p, k);
      ExecAction(Booting(w, p, k), p, BOOT[k..]);
      assert BOOT[k..][1..] == BOOT[k + 1..];
      BootFrom(w, p, k + 1);
    }
  }

  /** A candidate's uninterrupted steps do what `Acquire` does. */
  lemma BootIsAcquire(w: World, p: Pid)
    requires p in w.procs && w.procs[p] == Candidate && w.dir.lock == None
    ensures ExecFrom(w, Steps(p, BOOT))
         == Some(World(w.procs[p := Serving(true, false, NotCleaning)], RunDir(Some(p), Some(p), None, None)))
  {
    BootFrom(w, p, 0);
    assert BOOT[0..] == BOOT;
    hide Next, ExecFrom;
  }

  /** The run behind `EarlyReturnIsUnsafe`: `p` boots, passes its ownership check, loses its lease to
      an error return; `q` boots. */
  function Overtaken(p: Pid, q: Pid): seq<Step> {
    ([Step(p, StartCandidate)] + Steps(p, BOOT)) + ([Step(p, BeginCleanup)] + [Step(p, ReturnEarly)])
    + ([Step(q, StartCandidate)] + Steps(q, BOOT))
  }

  lemma BootAfter(w: World, p: Pid)
    requires p !in w.procs && w.dir.lock == None
    ensures ExecFrom(w, [Step(p, StartCandidate)] + Steps(p, BOOT))
         == Some(World(w.procs[p := Serving(true, false, NotCleaning)], RunDir(Some(p), Some(p), None, None)))
  {
    var v := World(w.procs[p := Candidate], w.dir);
    assert Next(w, p, StartCandidate) == Some(v);
    hide Next;
    ExecOne(w, Step(p, StartCandidate));
    ExecSplits(w, [Step(p, StartCandidate)], Steps(p, BOOT));
    BootIsAcquire(v, p);
    assert v.procs[p := Serving(true, false, NotCleaning)] == w.procs[p := Serving(true, false, NotCleaning)];
  }

  /** Without that condition the guarantee fails: a daemon that passed its ownership check, returned
      from `main` and was succeeded goes on to delete its successor's pid file. */
  lemma EarlyReturnIsUnsafe(files: RunDir, p: Pid, q: Pid)
    requires p != q
    ensures Exec(files, Overtaken(p, q)).Some?
    ensures var w := Exec(files, Overtaken(p, q)).value;
      && IsDaemonHolder(w, q) && w.dir.pid == Some(q)
      && Next(w, p, RemoveOwn).Some?
      && Next(w, p, RemoveOwn).value.dir.pid == None
      && Next(w, p, RemoveOwn).value.dir.lock == Some(q)
  {
    var w0 := World(map[], files.(lock := None));
    var w1 := World(w0.procs[p := Serving(true, false, NotCleaning)], RunDir(Some(p), Some(p), None, None));
    var w2 := World(w1.procs[p := Serving(true, false, Removing(0))], w1.dir);
    var w3 := World(w2.procs[p := Serving(false, false, Removing(0))], w1.dir.(lock := None));
    var w4 := World(w3.procs[q := Serving(true, false, NotCleaning)], RunDir(Some(q), Some(q), None, None));
    assert Next(w1, p, BeginCleanup) == Some(w2);
    assert Next(w2, p, ReturnEarly) == Some(w3);
    assert Next(w4, p, RemoveOwn).Some? && Next(w4, p, RemoveOwn).value.dir == w4.dir.(pid := None);
    hide Next;
    BootAfter(w0, p);
    BootAfter(w3, q);
    var a := [Step(p, StartCandidate)] + Steps(p, BOOT);
    var b := [Step(p, BeginCleanup)] + [Step(p, ReturnEarly)];
    ExecSplits(w0, a, b);
    ExecSplits(w1, [Step(p, BeginCleanup)], [Step(p, ReturnEarly)]);
    ExecOne(w1, Step(p, BeginCleanup));
    ExecOne(w2, Step(p, ReturnEarly));
    ExecSplits(w0, a + b, [Step(q, StartCandidate)] + Steps(q, BOOT));
  }
}
