/** Quick-session send and move, and the cron engine's fire, on the three trees. */
module SessionRollback {
  import opened Results
  import opened GitTrees
  import opened Rollback

  function SessionMeta(dir: string): Path {
    Path(dir, "session.meta.yaml")
  }

  // ----- send

  /** Both files written and part of them staged. */
  function PartlySent(t: Trees, dir: string, newMeta: string, newThread: string, staged: set<Path>): Trees {
    Stage(Write(Write(t, SessionMeta(dir), newMeta), ThreadOf(dir), newThread), staged)
  }

  function SendRolledBack(t: Trees, dir: string, newMeta: string, newThread: string, staged: set<Path>): Trees
    requires SessionMeta(dir) in t.work && ThreadOf(dir) in t.work
  {
    var reset := Reset(PartlySent(t, dir, newMeta, newThread, staged), {SessionMeta(dir), ThreadOf(dir)});
    Write(Write(reset, SessionMeta(dir), t.work[SessionMeta(dir)]), ThreadOf(dir), t.work[ThreadOf(dir)])
  }

  lemma OverlayTwice(base: Tree, a: Tree, b: Tree, p: set<Path>, q: set<Path>)
    requires p <= q
    ensures Overlay(Overlay(base, a, p), b, q) == Overlay(base, b, q)
  {
    var once, twice := Overlay(base, b, q), Overlay(Overlay(base, a, p), b, q);
    forall x ensures SameAt(once, twice, x) {
      OverlayAt(base, a, p, x);
      OverlayAt(Overlay(base, a, p), b, q, x);
      OverlayAt(base, b, q, x);
    }
    hide Overlay;
    SameEverywhere(once, twice);
  }

  /** A failed send leaves all three trees as they were, whatever was staged, exactly when neither file
      had staged changes before; uncommitted edits in the working files survive. */
  lemma SendRollbackExact(t: Trees, dir: string, newMeta: string, newThread: string, staged: set<Path>)
    requires SessionMeta(dir) in t.work && ThreadOf(dir) in t.work
    requires staged <= {SessionMeta(dir), ThreadOf(dir)}
    ensures SendRolledBack(t, dir, newMeta, newThread, staged) == t
      <==> SameAt(t.index, t.head, SessionMeta(dir)) && SameAt(t.index, t.head, ThreadOf(dir))
  {
    hide Overlay;
    var meta, thread := SessionMeta(dir), ThreadOf(dir);
    var work := t.work[meta := newMeta][thread := newThread];
    OverlayTwice(t.index, work, t.head, staged, {meta, thread});
    OverlaySame(t.index, t.head, {meta, thread});
    assert work[meta := t.work[meta]][thread := t.work[thread]] == t.work;
  }

  /** A committed send: the commit holds the two new files and otherwise what was staged before, and the
      working tree changes nowhere else. */
  lemma SendCommits(t: Trees, dir: string, newMeta: string, newThread: string, p: Path)
    ensures var sent := CommitIndex(PartlySent(t, dir, newMeta, newThread, {SessionMeta(dir), ThreadOf(dir)}));
      && sent.head == sent.index
      && (p == Path(dir, "session.meta.yaml") ==>
           p in sent.work && p in sent.head && sent.work[p] == newMeta && sent.head[p] == newMeta)
      && (p == Path(dir, "discussion.thread") ==>
           p in sent.work && p in sent.head && sent.work[p] == newThread && sent.head[p] == newThread)
      && (p != Path(dir, "session.meta.yaml") && p != Path(dir, "discussion.thread") ==>
           SameAt(sent.work, t.work, p) && SameAt(sent.head, t.index, p))
  {
    hide Overlay;
    var work := t.work[SessionMeta(dir) := newMeta][ThreadOf(dir) := newThread];
    OverlayAt(t.index, work, {SessionMeta(dir), ThreadOf(dir)}, p);
  }

  datatype SendSteps = SendSteps(metaOk: bool, threadOk: bool, commit: Commit)

  /** The send handler from its first write on. */
  method Send(repo: Repository, dir: string, newMeta: string, newThread: string, steps: SendSteps) returns (r: Outcome)
    requires SessionMeta(dir) in repo.t.work && ThreadOf(dir) in repo.t.work
    requires steps.commit.CommitFails? ==> steps.commit.staged <= {SessionMeta(dir), ThreadOf(dir)}
    modifies repo
    ensures r == if steps.metaOk && steps.threadOk && steps.commit == Commits then Done else Failed
    ensures r == Done ==>
      repo.t == CommitIndex(PartlySent(old(repo.t), dir, newMeta, newThread, {SessionMeta(dir), ThreadOf(dir)}))
    ensures r != Done && !(steps.metaOk && steps.threadOk) ==> repo.t == old(repo.t)
    ensures r != Done && steps.metaOk && steps.threadOk ==>
      (repo.t == old(repo.t) <==>
        SameAt(old(repo.t).index, old(repo.t).head, SessionMeta(dir)) && SameAt(old(repo.t).index, old(repo.t).head, ThreadOf(dir)))
  {
    hide Overlay;
    var meta, thread := SessionMeta(dir), ThreadOf(dir);
    var oldMeta, oldThread := repo.t.work[meta], repo.t.work[thread];
    if steps.metaOk {
      repo.t := Write(repo.t, meta, newMeta);
    }
    if steps.metaOk && steps.threadOk {
      repo.t := Write(repo.t, thread, newThread);
    } else {
      repo.t := Write(repo.t, meta, oldMeta);
      repo.t := Write(repo.t, thread, oldThread);
      assert repo.t.work == old(repo.t).work;
      return Failed;
    }
    if steps.commit.CommitFails? {
      repo.t := Stage(repo.t, steps.commit.staged);
      repo.t := Reset(repo.t, {meta, thread});
      repo.t := Write(repo.t, meta, oldMeta);
      repo.t := Write(repo.t, thread, oldThread);
      SendRollbackExact(old(repo.t), dir, newMeta, newThread, steps.commit.staged);
      return Failed;
    }
    repo.t := Stage(repo.t, {meta, thread});
    repo.t := CommitIndex(repo.t);
    return Done;
  }

  // ----- move

  /** Move back, reset the three metadata and thread paths, write the old metadata. */
  function MoveRolledBack(t: Trees, from: string, to: string, newMeta: string, staged: set<Path>): Trees
    requires SessionMeta(from) in t.work
  {
    var back := Mv(PartlyMoved(t, SessionMeta(from), to, newMeta, staged), to, from);
    var reset := Reset(back, {SessionMeta(from), SessionMeta(to), ThreadOf(to)});
    Write(reset, SessionMeta(from), t.work[SessionMeta(from)])
  }

  /** Resetting paths that neither the index nor HEAD has changes nothing. */
  lemma ResetElsewhere(base: Tree, head: Tree, meta: Path, to: string)
    requires meta.dir != to && !Occupied(base, to) && !Occupied(head, to)
    ensures Overlay(base, head, {meta, SessionMeta(to), ThreadOf(to)}) == Overlay(base, head, {meta})
  {
    var wide, narrow := Overlay(base, head, {meta, SessionMeta(to), ThreadOf(to)}), Overlay(base, head, {meta});
    forall p ensures SameAt(wide, narrow, p) {
      OverlayAt(base, head, {meta, SessionMeta(to), ThreadOf(to)}, p);
      OverlayAt(base, head, {meta}, p);
    }
    hide Overlay;
    SameEverywhere(wide, narrow);
  }

  /** A failed move leaves all three trees as they were exactly when the metadata had no staged change
      and no uncommitted thread edit had been staged on the way. */
  lemma MoveRollbackExact(t: Trees, from: string, to: string, newMeta: string, staged: set<Path>)
    requires from != to && Free(t, to) && SessionMeta(from) in t.work
    requires staged <= {SessionMeta(to), ThreadOf(to)}
    ensures MoveRolledBack(t, from, to, newMeta, staged) == t
      <==> && SameAt(t.index, t.head, SessionMeta(from))
           && (ThreadOf(to) in staged ==> SameAt(t.index, t.work, ThreadOf(from)))
  {
    hide Move, Overlay;
    var meta := SessionMeta(from);
    var here := RenameAll(staged, to, from);
    MovedThereAndBack(t, meta, to, newMeta, staged);
    assert ThreadOf(to) in staged ==> Rename(ThreadOf(to), to, from) in here;
    IndexAfterRollback(t, meta, ThreadOf(from), newMeta, here);
    var work := t.work[meta := newMeta];
    WriteUnoccupied(t.work, meta, newMeta, to);
    OverlayUnoccupied(t.index, work, here, to);
    ResetElsewhere(Overlay(t.index, work, here), t.head, meta, to);
    assert work[meta := t.work[meta]] == t.work;
  }

  /** The move handler from its first write on; leftovers at the target swallow the session as they do a
      card. */
  method MoveSession(repo: Repository, from: string, to: string, id: string, newMeta: string, steps: Steps) returns (r: Outcome)
    requires from != to && to != Inside(from, id) && from != Inside(to, id) && SessionMeta(from) in repo.t.work
    requires steps.commit.CommitFails? ==> steps.commit.staged <= {SessionMeta(to), ThreadOf(to)}
    modifies repo
    ensures Free(old(repo.t), to) ==>
      && r == (if AllOk(steps) && ThreadOf(from) in old(repo.t).work then Done else Failed)
      && (r == Done ==>
           repo.t == CommitIndex(PartlyMoved(old(repo.t), SessionMeta(from), to, newMeta, {SessionMeta(to), ThreadOf(to)})))
      && (r != Done && CleanAt(old(repo.t), SessionMeta(from)) && CleanAt(old(repo.t), ThreadOf(from)) ==> repo.t == old(repo.t))
    ensures Occupied(old(repo.t).work, to) && Moves(old(repo.t), to, id, steps) && r == Failed ==> repo.t != old(repo.t)
  {
    hide Move, Overlay;
    var meta := SessionMeta(from);
    var oldMeta := repo.t.work[meta];
    if !steps.writeOk {
      return Failed;
    }
    var nested := Occupied(repo.t.work, to);
    repo.t := Write(repo.t, meta, newMeta);
    OccupiedAfterWrite(old(repo.t).work, meta, newMeta, to);
    OccupiedAfterWrite(old(repo.t).work, meta, newMeta, Inside(to, id));
    if !steps.mkdirOk || !steps.mvOk || (nested && Occupied(repo.t.work, Inside(to, id))) {
      repo.t := Write(repo.t, meta, oldMeta);
      assert repo.t.work == old(repo.t).work;
      return Failed;
    }
    ghost var written := repo.t;
    repo.t := MvOnto(repo.t, from, to, id);
    if !nested {
      MoveAt(written.work, from, to, SessionMeta(to));
      MoveAt(written.work, from, to, ThreadOf(to));
    }
    if steps.commit.CommitFails? || SessionMeta(to) !in repo.t.work || ThreadOf(to) !in repo.t.work {
      ghost var staged: set<Path> := {};
      if steps.commit.CommitFails? {
        staged := steps.commit.staged;
        repo.t := Stage(repo.t, steps.commit.staged);
      } else {
        StageNothing(repo.t);
      }
      ghost var moved := repo.t;
      repo.t := MvBack(repo.t, to, from, id, nested);
      repo.t := Reset(repo.t, {meta, SessionMeta(to), ThreadOf(to)});
      repo.t := Write(repo.t, meta, oldMeta);
      if nested {
        MvBackVacates(moved, to, from, id);
        WriteUnoccupied(MvBack(moved, to, from, id, true).work, meta, oldMeta, to);
      } else if Free(old(repo.t), to) {
        MoveRollbackExact(old(repo.t), from, to, newMeta, staged);
      }
      return Failed;
    }
    repo.t := Stage(repo.t, {SessionMeta(to), ThreadOf(to)});
    repo.t := CommitIndex(repo.t);
    return Done;
  }

  // ----- fire

  /** The cron engine's rollback only deletes the file it wrote. */
  function FireRolledBack(t: Trees, file: Path, body: string, staged: set<Path>): Trees {
    var s := Stage(Write(t, file, body), staged);
    s.(work := s.work - {file})
  }

  /** So a failed fire leaves the trees as they were exactly when the file had not been staged; if it
      had, the next commit by any handler carries a fire that is not in the working tree. */
  lemma FireRollbackExact(t: Trees, file: Path, body: string, staged: set<Path>)
    requires file !in t.work && file !in t.index && staged <= {file}
    ensures FireRolledBack(t, file, body, staged) == t <==> staged == {}
    ensures staged != {} ==> var next := CommitIndex(FireRolledBack(t, file, body, staged));
      file !in next.work && file in next.head && next.head[file] == body
  {
    var work := t.work[file := body];
    assert work - {file} == t.work;
    OverlayAt(t.index, work, staged, file);
    OverlaySame(t.index, work, staged);
    hide Overlay;
    if staged != {} {
      assert staged == {file};
    }
  }
}
