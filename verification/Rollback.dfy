/** Handlers that change several files and commit them, and what they leave behind when a step fails:
    card archive and unarchive, quick-session send and move, and the cron engine's fire. */
module Rollback {
  import opened Results
  import opened GitTrees

  /** How `add_and_commit_as` ends: the commit is made, or it fails after `git add` staged some of
      the paths. */
  datatype Commit = Commits | CommitFails(staged: set<Path>)

  datatype Outcome = Refused | Failed | Done

  // ----- moving a directory with one rewritten file (cards)

  function MetaOf(dir: string): Path {
    Path(dir, "card.meta.yaml")
  }

  function ThreadOf(dir: string): Path {
    Path(dir, "discussion.thread")
  }

  /** Stamp, move, and stage part of what was to be committed. */
  function PartlyMoved(t: Trees, meta: Path, to: string, content: string, staged: set<Path>): Trees {
    Stage(Mv(Write(t, meta, content), meta.dir, to), staged)
  }

  /** The card handlers' rollback: move back, reset the metadata, check it out. */
  function CardRolledBack(t: Trees, from: string, to: string, content: string, staged: set<Path>): Trees {
    var back := Mv(PartlyMoved(t, MetaOf(from), to, content, staged), to, from);
    Checkout(Reset(back, {MetaOf(from)}), MetaOf(from))
  }

  lemma WriteUnoccupied(m: Tree, p: Path, content: string, dir: string)
    requires !Occupied(m, dir) && p.dir != dir
    ensures !Occupied(m[p := content], dir)
  {
  }

  /** After the moves cancel, only the write and the staging remain. */
  lemma MovedThereAndBack(t: Trees, meta: Path, to: string, content: string, staged: set<Path>)
    requires meta.dir != to && Free(t, to)
    requires forall p | p in staged :: p.dir == to
    ensures Mv(PartlyMoved(t, meta, to, content, staged), to, meta.dir)
         == Stage(Write(t, meta, content), RenameAll(staged, to, meta.dir))
  {
    hide Move, Overlay;
    var work := t.work[meta := content];
    WriteUnoccupied(t.work, meta, content, to);
    MoveBack(work, meta.dir, to);
    MoveOverlay(t.index, work, staged, meta.dir, to);
  }

  lemma OverlaySame(base: Tree, src: Tree, paths: set<Path>)
    ensures Overlay(base, src, paths) == base <==> forall p | p in paths :: SameAt(base, src, p)
  {
    if forall p | p in paths :: SameAt(base, src, p) {
      assert Overlay(base, src, paths) == base;
    } else {
      var p :| p in paths && !SameAt(base, src, p);
      OverlayAt(base, src, paths, p);
    }
  }

  /** What the index becomes: HEAD at the metadata, the working file at the thread if it was staged. */
  lemma IndexAfterRollback(t: Trees, meta: Path, thread: Path, content: string, staged: set<Path>)
    requires meta != thread && staged <= {meta, thread}
    ensures Reset(Stage(Write(t, meta, content), staged), {meta}).index == t.index
      <==> SameAt(t.index, t.head, meta) && (thread in staged ==> SameAt(t.index, t.work, thread))
  {
    var work := t.work[meta := content];
    var one := Overlay(t.index, work, staged);
    var two := Overlay(one, t.head, {meta});
    OverlayAt(t.index, work, staged, thread);
    OverlayAt(one, t.head, {meta}, thread);
    OverlayAt(one, t.head, {meta}, meta);
    hide Overlay;
    if SameAt(t.index, t.head, meta) && (thread in staged ==> SameAt(t.index, t.work, thread)) {
      forall p ensures SameAt(two, t.index, p) {
        OverlayAt(t.index, work, staged, p);
        OverlayAt(one, t.head, {meta}, p);
      }
      SameEverywhere(two, t.index);
    }
  }

  /** A failed commit of a tracked card leaves all three trees as they were exactly when the metadata
      was clean and no uncommitted thread edit had been staged on the way. */
  lemma CardRollbackExact(t: Trees, from: string, to: string, content: string, staged: set<Path>)
    requires from != to && Free(t, to) && MetaOf(from) in t.head && MetaOf(from) in t.work
    requires staged <= {MetaOf(to), ThreadOf(to)}
    ensures CardRolledBack(t, from, to, content, staged) == t
      <==> && SameAt(t.work, t.head, MetaOf(from)) && SameAt(t.index, t.head, MetaOf(from))
           && (ThreadOf(to) in staged ==> SameAt(t.index, t.work, ThreadOf(from)))
  {
    hide Move, Overlay;
    var meta := MetaOf(from);
    var here := RenameAll(staged, to, from);
    MovedThereAndBack(t, meta, to, content, staged);
    assert ThreadOf(to) in staged ==> Rename(ThreadOf(to), to, from) in here;
    IndexAfterRollback(t, meta, ThreadOf(from), content, here);
    var reset := Reset(Stage(Write(t, meta, content), here), {meta});
    OverlayAt(Stage(Write(t, meta, content), here).index, t.head, {meta}, meta);
    var done := CardRolledBack(t, from, to, content, staged);
    assert done == Checkout(reset, meta);
    assert done.work == t.work[meta := t.head[meta]] && done.head == t.head && done.index == reset.index;
    assert done.work[meta] == t.head[meta];
    assert done.work == t.work <==> t.work[meta] == t.head[meta];
  }

  // ----- cards

  datatype CardMeta = CardMeta(createdBy: string, assignee: Option<string>, archivedVia: Option<string>, rest: string)

  /** The YAML codec of card metadata. */
  datatype Yaml = Yaml(parse: string -> Option<CardMeta>, render: CardMeta -> string) {
    ghost predicate RoundTrips() {
      forall m :: parse(render(m)) == Some(m)
    }
  }

  function ActiveDir(channel: string, card: string): string {
    "channels/" + channel + "/cards/" + card
  }

  function ArchivedDir(channel: string, card: string): string {
    "archive/channels/" + channel + "/cards/" + card
  }

  lemma DirsDiffer(channel: string, card: string)
    ensures var a, b := ActiveDir(channel, card), ArchivedDir(channel, card);
      && a != b && a != Inside(b, card) && b != Inside(a, card)
      && a == "channels/" + channel + "/cards/" + card
      && b == "archive/channels/" + channel + "/cards/" + card
  {
    var a, b := ActiveDir(channel, card), ArchivedDir(channel, card);
    assert a[0] == 'c' && b[0] == 'a' && Inside(a, card)[0] == a[0] && Inside(b, card)[0] == b[0];
  }

  predicate MayMove(meta: CardMeta, author: string) {
    meta.createdBy == author || meta.assignee == Some(author)
  }

  /** A committed move: stamp, `git mv`, add, commit. */
  function CardMoved(t: Trees, from: string, to: string, content: string): Trees {
    CommitIndex(PartlyMoved(t, MetaOf(from), to, content, {MetaOf(to), ThreadOf(to)}))
  }

  predicate CleanAt(t: Trees, p: Path) {
    SameAt(t.work, t.index, p) && SameAt(t.index, t.head, p)
  }

  datatype Steps = Steps(writeOk: bool, mkdirOk: bool, mvOk: bool, commit: Commit)

  predicate AllOk(steps: Steps) {
    steps.writeOk && steps.mkdirOk && steps.mvOk && steps.commit == Commits
  }

  /** The card is there, readable, and the author may move it. */
  predicate Allowed(yaml: Yaml, t: Trees, from: string, author: string) {
    && MetaOf(from) in t.work
    && yaml.parse(t.work[MetaOf(from)]).Some?
    && MayMove(yaml.parse(t.work[MetaOf(from)]).value, author)
  }

  /** The steps up to and including the move succeed. */
  predicate Moves(t: Trees, to: string, card: string, steps: Steps) {
    steps.writeOk && steps.mkdirOk && steps.mvOk && !Occupied(t.work, Inside(to, card))
  }

  lemma OccupiedAfterWrite(m: Tree, p: Path, content: string, dir: string)
    requires p in m
    ensures Occupied(m[p := content], dir) <==> Occupied(m, dir)
  {
    if q :| q in m && q.dir == dir {
      assert q in m[p := content];
    }
  }

  /** A card moved inside an occupied directory: it has left, it is in there, and the leftovers are as
      they were. */
  lemma NestedAt(m: Tree, from: string, to: string, card: string)
    requires from != to && from != Inside(to, card) && !Occupied(m, Inside(to, card)) && MetaOf(from) in m
    ensures var n := Move(m, from, Inside(to, card));
      && MetaOf(from) !in n && MetaOf(Inside(to, card)) in n
      && SameAt(n, m, MetaOf(to)) && SameAt(n, m, ThreadOf(to))
  {
    hide Move;
    var inside := Inside(to, card);
    assert |inside| > |to|;
    MoveAt(m, from, inside, MetaOf(from));
    MoveAt(m, from, inside, MetaOf(inside));
    MoveAt(m, from, inside, MetaOf(to));
    MoveAt(m, from, inside, ThreadOf(to));
  }

  lemma CheckoutElsewhere(t: Trees, p: Path, dir: string)
    requires !Occupied(t.work, dir) && p.dir != dir
    ensures !Occupied(Checkout(t, p).work, dir)
  {
  }

  /** One clone's repository, changed in place. */
  class Repository {
    var t: Trees

    constructor (t: Trees)
      ensures this.t == t
    {
      this.t := t;
    }

    /** `restore_card_yaml`. */
    method RestoreCardYaml(meta: Path)
      modifies this
      ensures t == Checkout(Reset(old(t), {meta}), meta)
    {
      t := Reset(t, {meta});
      t := Checkout(t, meta);
    }

    /** Archive (`via` is `manual`) and unarchive (`via` is none) past location and channel checks. With
        a free destination an error leaves all three trees alone if the card was clean. Leftovers at the
        destination swallow the card, and then an error after the move never restores the trees. */
    method MoveCard(yaml: Yaml, from: string, to: string, card: string, author: string, via: Option<string>, steps: Steps)
      returns (r: Outcome)
      requires from != to && to != Inside(from, card) && from != Inside(to, card)
      requires steps.commit.CommitFails? ==> steps.commit.staged <= {MetaOf(to), ThreadOf(to)}
      modifies this
      ensures r == Refused <==> !Allowed(yaml, old(t), from, author)
      ensures r == Refused ==> t == old(t)
      ensures Free(old(t), to) ==>
        && (r != Done && CleanAt(old(t), MetaOf(from)) && CleanAt(old(t), ThreadOf(from)) ==> t == old(t))
        && (r == Done <==> Allowed(yaml, old(t), from, author) && AllOk(steps) && ThreadOf(from) in old(t).work)
        && (r == Done ==>
             t == CardMoved(old(t), from, to, yaml.render(yaml.parse(old(t).work[MetaOf(from)]).value.(archivedVia := via))))
      ensures Occupied(old(t).work, to) && Moves(old(t), to, card, steps) ==>
        && (r == Failed ==> t != old(t))
        && (r == Done ==>
             && MetaOf(from) !in t.work && MetaOf(Inside(to, card)) in t.work
             && SameAt(t.work, old(t).work, MetaOf(to)) && SameAt(t.work, old(t).work, ThreadOf(to)))
    {
      hide Move, Overlay;
      var metaPath := MetaOf(from);
      if metaPath !in t.work {
        return Refused;
      }
      var parsed := yaml.parse(t.work[metaPath]);
      if parsed.None? || !MayMove(parsed.value, author) {
        return Refused;
      }
      var content := yaml.render(parsed.value.(archivedVia := via));
      if !steps.writeOk {
        return Failed;
      }
      var nested := Occupied(t.work, to);
      t := Write(t, metaPath, content);
      OccupiedAfterWrite(old(t).work, metaPath, content, to);
      OccupiedAfterWrite(old(t).work, metaPath, content, Inside(to, card));
      if !steps.mkdirOk || !steps.mvOk || (nested && Occupied(t.work, Inside(to, card))) {
        RestoreCardYaml(metaPath);
        RestoredUnmoved(old(t), metaPath, content);
        return Failed;
      }
      ghost var written := t;
      t := MvOnto(t, from, to, card);
      if nested {
        NestedAt(written.work, from, to, card);
      } else {
        MoveAt(written.work, from, to, MetaOf(to));
        MoveAt(written.work, from, to, ThreadOf(to));
      }
      if steps.commit.CommitFails? || MetaOf(to) !in t.work || ThreadOf(to) !in t.work {
        ghost var staged: set<Path> := {};
        if steps.commit.CommitFails? {
          staged := steps.commit.staged;
          t := Stage(t, steps.commit.staged);
        } else {
          StageNothing(t);
        }
        ghost var moved := t;
        t := MvBack(t, to, from, card, nested);
        RestoreCardYaml(metaPath);
        if nested {
          MvBackVacates(moved, to, from, card);
          CheckoutElsewhere(Reset(MvBack(moved, to, from, card, true), {metaPath}), metaPath, to);
        } else if Free(old(t), to) {
          RolledBackIfClean(old(t), from, to, content, staged);
        }
        return Failed;
      }
      t := Stage(t, {MetaOf(to), ThreadOf(to)});
      t := CommitIndex(t);
      return Done;
    }

    /** `locate_card` then the archive handler. */
    method ArchiveCard(yaml: Yaml, channel: string, card: string, author: string, steps: Steps) returns (r: Outcome)
      requires steps.commit.CommitFails? ==>
        steps.commit.staged <= {MetaOf(ArchivedDir(channel, card)), ThreadOf(ArchivedDir(channel, card))}
      modifies this
      ensures r == Refused <==>
        var p := Path("channels/" + channel + "/cards/" + card, "card.meta.yaml");
        || p !in old(t).work
        || yaml.parse(old(t).work[p]).None?
        || var m := yaml.parse(old(t).work[p]).value; m.createdBy != author && m.assignee != Some(author)
      ensures Free(old(t), ArchivedDir(channel, card)) ==>
        (r == Done <==> r != Refused && AllOk(steps) && Path("channels/" + channel + "/cards/" + card, "discussion.thread") in old(t).work)
      ensures var from := ActiveDir(channel, card);
        Free(old(t), ArchivedDir(channel, card)) && r != Done && CleanAt(old(t), MetaOf(from)) && CleanAt(old(t), ThreadOf(from))
        ==> t == old(t)
      ensures Occupied(old(t).work, ArchivedDir(channel, card)) && Moves(old(t), ArchivedDir(channel, card), card, steps) && r == Failed
        ==> t != old(t)
      ensures Free(old(t), ArchivedDir(channel, card)) && r == Done ==> exists m: CardMeta ::
        t == CardMoved(old(t), ActiveDir(channel, card), ArchivedDir(channel, card), yaml.render(m.(archivedVia := Some("manual"))))
        && MetaOf(ActiveDir(channel, card)) in old(t).work
        && yaml.parse(old(t).work[MetaOf(ActiveDir(channel, card))]) == Some(m)
    {
      DirsDiffer(channel, card);
      hide CardMoved, CleanAt, Free, ActiveDir, ArchivedDir, Occupied, Inside;
      if MetaOf(ActiveDir(channel, card)) !in t.work {
        return Refused;
      }
      r := MoveCard(yaml, ActiveDir(channel, card), ArchivedDir(channel, card), card, author, Some("manual"), steps);
    }

    /** Unarchive, which also needs the channel to be active. A card in both places counts as active. */
    method UnarchiveCard(yaml: Yaml, channel: string, card: string, author: string, steps: Steps) returns (r: Outcome)
      requires steps.commit.CommitFails? ==>
        steps.commit.staged <= {MetaOf(ActiveDir(channel, card)), ThreadOf(ActiveDir(channel, card))}
      modifies this
      ensures r == Refused <==>
        var p := Path("archive/channels/" + channel + "/cards/" + card, "card.meta.yaml");
        || Path("channels/" + channel + "/cards/" + card, "card.meta.yaml") in old(t).work
        || p !in old(t).work
        || Path("channels", channel + ".thread") !in old(t).work
        || yaml.parse(old(t).work[p]).None?
        || var m := yaml.parse(old(t).work[p]).value; m.createdBy != author && m.assignee != Some(author)
      ensures Free(old(t), ActiveDir(channel, card)) ==>
        (r == Done <==> r != Refused && AllOk(steps) && Path("archive/channels/" + channel + "/cards/" + card, "discussion.thread") in old(t).work)
      ensures var from := ArchivedDir(channel, card);
        Free(old(t), ActiveDir(channel, card)) && r != Done && CleanAt(old(t), MetaOf(from)) && CleanAt(old(t), ThreadOf(from))
        ==> t == old(t)
      ensures Occupied(old(t).work, ActiveDir(channel, card)) && Moves(old(t), ActiveDir(channel, card), card, steps) && r == Failed
        ==> t != old(t)
      ensures Free(old(t), ActiveDir(channel, card)) && r == Done ==> exists m: CardMeta ::
        t == CardMoved(old(t), ArchivedDir(channel, card), ActiveDir(channel, card), yaml.render(m.(archivedVia := None)))
        && MetaOf(ArchivedDir(channel, card)) in old(t).work
        && yaml.parse(old(t).work[MetaOf(ArchivedDir(channel, card))]) == Some(m)
    {
      DirsDiffer(channel, card);
      hide CardMoved, CleanAt, Free, ActiveDir, ArchivedDir, Occupied, Inside;
      if MetaOf(ActiveDir(channel, card)) in t.work || MetaOf(ArchivedDir(channel, card)) !in t.work {
        return Refused;
      }
      if Path("channels", channel + ".thread") !in t.work {
        return Refused;
      }
      r := MoveCard(yaml, ArchivedDir(channel, card), ActiveDir(channel, card), card, author, None, steps);
    }
  }

  lemma StageNothing(t: Trees)
    ensures Stage(t, {}) == t
  {
    assert Overlay(t.index, t.work, {}) == t.index;
  }

  /** Undoing a stamp that was never moved. */
  lemma RestoredUnmoved(t: Trees, meta: Path, content: string)
    requires meta in t.work
    ensures CleanAt(t, meta) ==> Checkout(Reset(Write(t, meta, content), {meta}), meta) == t
  {
    OverlaySame(t.index, t.head, {meta});
    hide Overlay;
    if CleanAt(t, meta) {
      assert Reset(Write(t, meta, content), {meta}).index == t.index;
      assert t.work[meta := content][meta := t.index[meta]] == t.work;
    }
  }

  lemma RolledBackIfClean(t: Trees, from: string, to: string, content: string, staged: set<Path>)
    requires from != to && Free(t, to) && MetaOf(from) in t.work
    requires staged <= {MetaOf(to), ThreadOf(to)}
    ensures CleanAt(t, MetaOf(from)) && CleanAt(t, ThreadOf(from)) ==> CardRolledBack(t, from, to, content, staged) == t
  {
    hide CardRolledBack;
    if CleanAt(t, MetaOf(from)) && CleanAt(t, ThreadOf(from)) {
      CardRollbackExact(t, from, to, content, staged);
    }
  }

  // ----- what a committed move contains

  /** Path by path: nothing is left at the old place, the rewritten file has its new content at the new
      one, the thread is committed as it was in the working tree, and every other file of the directory
      goes along as it is; the commit is the whole index and outside the two directories nothing changes. */
  lemma MoveCommits(t: Trees, from: string, to: string, name: string, content: string, p: Path)
    requires from != to && Free(t, to) && name != "discussion.thread"
    ensures var moved := CommitIndex(PartlyMoved(t, Path(from, name), to, content, {Path(to, name), ThreadOf(to)}));
      var was := Path(from, p.name);
      && moved.head == moved.index
      && (p.dir == from ==> p !in moved.work && p !in moved.head)
      && (p == Path(to, name) ==> p in moved.work && p in moved.head && moved.work[p] == content && moved.head[p] == content)
      && (p == Path(to, "discussion.thread") ==>
           && (p in moved.head <==> was in t.work) && (was in t.work ==> moved.head[p] == t.work[was])
           && (p in moved.work <==> was in t.work) && (was in t.work ==> moved.work[p] == t.work[was]))
      && (p.dir == to && p.name != name && p.name != "discussion.thread" ==>
           && (p in moved.head <==> was in t.index) && (was in t.index ==> moved.head[p] == t.index[was])
           && (p in moved.work <==> was in t.work) && (was in t.work ==> moved.work[p] == t.work[was]))
      && (p.dir != from && p.dir != to ==> SameAt(moved.work, t.work, p) && SameAt(moved.head, t.index, p))
  {
    hide Move, Overlay;
    var meta := Path(from, name);
    var work := t.work[meta := content];
    WriteUnoccupied(t.work, meta, content, to);
    MoveAt(t.index, from, to, p);
    MoveAt(work, from, to, p);
    OverlayAt(Move(t.index, from, to), Move(work, from, to), {Path(to, name), ThreadOf(to)}, p);
    var moved := CommitIndex(PartlyMoved(t, meta, to, content, {Path(to, name), ThreadOf(to)}));
    assert moved.work == Move(work, from, to);
    assert moved.head == Overlay(Move(t.index, from, to), Move(work, from, to), {Path(to, name), ThreadOf(to)});
  }

  /** The two places of a card, and what archiving puts there. */
  lemma ArchiveCommits(t: Trees, channel: string, card: string, content: string)
    requires Free(t, "archive/channels/" + channel + "/cards/" + card)
    requires MetaOf(ActiveDir(channel, card)) in t.work
    ensures var a := CardMoved(t, ActiveDir(channel, card), ArchivedDir(channel, card), content);
      && Path("channels/" + channel + "/cards/" + card, "card.meta.yaml") !in a.head
      && Path("archive/channels/" + channel + "/cards/" + card, "card.meta.yaml") in a.head
      && a.head[Path("archive/channels/" + channel + "/cards/" + card, "card.meta.yaml")] == content
  {
    DirsDiffer(channel, card);
    var from, to := ActiveDir(channel, card), ArchivedDir(channel, card);
    hide ActiveDir, ArchivedDir, Move, Overlay;
    MoveCommits(t, from, to, "card.meta.yaml", content, MetaOf(from));
    MoveCommits(t, from, to, "card.meta.yaml", content, MetaOf(to));
  }

  // ----- archive, then unarchive

  lemma MovedIndex(t: Trees, from: string, to: string, content: string)
    requires from != to && Free(t, to) && t.index == t.head
    requires MetaOf(from) in t.work && SameAt(t.work, t.index, ThreadOf(from))
    ensures var i := t.index[MetaOf(from) := content];
      CardMoved(t, from, to, content)
      == Trees(Move(t.work[MetaOf(from) := content], from, to), Move(i, from, to), Move(i, from, to))
  {
    hide Move, Overlay;
    var meta := MetaOf(from);
    var work, i := t.work[meta := content], t.index[meta := content];
    var staged := {MetaOf(to), ThreadOf(to)};
    WriteUnoccupied(t.work, meta, content, to);
    WriteUnoccupied(t.index, meta, content, to);
    var o := Overlay(Move(t.index, from, to), Move(work, from, to), staged);
    forall q ensures SameAt(o, Move(i, from, to), q) {
      OverlayAt(Move(t.index, from, to), Move(work, from, to), staged, q);
      MoveAt(t.index, from, to, q);
      MoveAt(work, from, to, q);
      MoveAt(i, from, to, q);
    }
    SameEverywhere(o, Move(i, from, to));
  }

  lemma MovedStaysClean(t: Trees, from: string, to: string, content: string)
    requires from != to && Free(t, to) && t.index == t.head
    requires MetaOf(from) in t.work && SameAt(t.work, t.index, ThreadOf(from))
    ensures var a := CardMoved(t, from, to, content);
      && Free(a, from) && a.index == a.head
      && MetaOf(to) in a.work && a.work[MetaOf(to)] == content
      && SameAt(a.work, a.index, ThreadOf(to))
  {
    hide Move, Overlay;
    MovedIndex(t, from, to, content);
    var work, i := t.work[MetaOf(from) := content], t.index[MetaOf(from) := content];
    MoveVacates(work, from, to);
    MoveVacates(i, from, to);
    WriteUnoccupied(t.work, MetaOf(from), content, to);
    WriteUnoccupied(t.index, MetaOf(from), content, to);
    MoveAt(work, from, to, MetaOf(to));
    MoveAt(work, from, to, ThreadOf(to));
    MoveAt(i, from, to, ThreadOf(to));
  }

  /** Moving a card out and back restores every path and content but the rewritten metadata. */
  lemma MoveOutAndBack(t: Trees, from: string, to: string, c1: string, c2: string)
    requires from != to && Free(t, to) && t.index == t.head
    requires MetaOf(from) in t.work && SameAt(t.work, t.index, ThreadOf(from))
    ensures var b := CardMoved(CardMoved(t, from, to, c1), to, from, c2);
      var i := t.index[MetaOf(from) := c2];
      b == Trees(t.work[MetaOf(from) := c2], i, i)
  {
    hide Move, Overlay, CardMoved;
    var work, i := t.work[MetaOf(from) := c1], t.index[MetaOf(from) := c1];
    MovedIndex(t, from, to, c1);
    MovedStaysClean(t, from, to, c1);
    MovedIndex(CardMoved(t, from, to, c1), to, from, c2);
    WriteUnoccupied(t.work, MetaOf(from), c1, to);
    WriteUnoccupied(t.index, MetaOf(from), c1, to);
    MoveRewrites(work, from, to, c2);
    MoveRewrites(i, from, to, c2);
    assert work[MetaOf(from) := c2] == t.work[MetaOf(from) := c2];
    assert i[MetaOf(from) := c2] == t.index[MetaOf(from) := c2];
  }

  lemma MoveRewrites(m: Tree, from: string, to: string, c: string)
    requires from != to && !Occupied(m, to) && MetaOf(from) in m
    ensures Move(Move(m, from, to)[MetaOf(to) := c], to, from) == m[MetaOf(from) := c]
  {
    hide Move;
    var moved := Move(m, from, to)[MetaOf(to) := c];
    MoveVacates(m, from, to);
    WriteUnoccupied(Move(m, from, to), MetaOf(to), c, from);
    var back, rewritten := Move(moved, to, from), m[MetaOf(from) := c];
    forall p ensures SameAt(back, rewritten, p) {
      MoveAt(moved, to, from, p);
      MoveAt(m, from, to, Rename(p, from, to));
    }
    SameEverywhere(back, rewritten);
  }

  /** A card archived and unarchived by anyone entitled keeps its place and everything in its metadata
      except that `archived_via` ends up cleared; nothing else in the repository changes. */
  lemma ArchiveUnarchive(yaml: Yaml, t: Trees, from: string, to: string, m: CardMeta)
    requires yaml.RoundTrips() && from != to && Free(t, to) && t.index == t.head
    requires SameAt(t.work, t.index, ThreadOf(from))
    requires MetaOf(from) in t.work && yaml.parse(t.work[MetaOf(from)]) == Some(m)
    ensures var a := CardMoved(t, from, to, yaml.render(m.(archivedVia := Some("manual"))));
      && MetaOf(to) in a.work && yaml.parse(a.work[MetaOf(to)]) == Some(m.(archivedVia := Some("manual")))
      && var c := yaml.render(m.(archivedVia := Some("manual")).(archivedVia := None));
      && yaml.parse(c) == Some(m.(archivedVia := None))
      && CardMoved(a, to, from, c) == Trees(t.work[MetaOf(from) := c], t.head[MetaOf(from) := c], t.head[MetaOf(from) := c])
  {
    hide CardMoved, Free, Move, Overlay;
    var c1 := yaml.render(m.(archivedVia := Some("manual")));
    var c2 := yaml.render(m.(archivedVia := None));
    MovedStaysClean(t, from, to, c1);
    MoveOutAndBack(t, from, to, c1, c2);
    assert m.(archivedVia := Some("manual")).(archivedVia := None) == m.(archivedVia := None);
  }
}
