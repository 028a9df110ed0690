/** Many clones, one remote. A push is a compare-and-swap on the remote's history, a rebase replays
    local commits by three-way merge, and both can fail. */
module PushProtocol {
  import opened Results

  type Tree = map<string, string>

  /** What a commit is for. A registration adds one file; the general-channel init adds files and may
      extend `.gitignore`; nothing is assumed of other commits. */
  datatype Kind = Register(path: string, content: string) | Init | Other

  /** `op` names the logical change and survives rebasing; `tree` is the snapshot. */
  datatype Commit = Commit(op: nat, kind: Kind, tree: Tree)

  type History = seq<Commit>

  function TreeAt(h: History, k: nat): Tree
    requires k <= |h|
  {
    if k == 0 then map[] else h[k - 1].tree
  }

  function Tip(h: History): Tree {
    TreeAt(h, |h|)
  }

  predicate Respects(kind: Kind, parent: Tree, tree: Tree) {
    match kind
    case Register(path, content) => path !in parent && tree == parent[path := content]
    case Init => forall p | p in parent && p != ".gitignore" :: p in tree && tree[p] == parent[p]
    case Other => true
  }

  // ----- rebase

  type MergeText = (string, string, string) -> Option<string>

  /** The change a commit makes to its parent's tree. */
  datatype Patch = Patch(before: Tree, after: Tree)

  /** What is git's to decide: merging contents, and telling whether two commits are the same patch. */
  datatype Git = Git(text: MergeText, same: (Patch, Patch) -> bool)

  function At(t: Tree, p: string): Option<string> {
    if p in t then Some(t[p]) else None
  }

  /** One path of a three-way merge; no result is a conflict. Without a common ancestor, two different
      additions always conflict. */
  function MergeAt(git: Git, base: Option<string>, theirs: Option<string>, ours: Option<string>): Option<Option<string>> {
    if theirs == base then Some(ours)
    else if ours == base || ours == theirs then Some(theirs)
    else if base.Some? && theirs.Some? && ours.Some? then
      var m :- git.text(base.value, theirs.value, ours.value);
      Some(Some(m))
    else None
  }

  function MergePath(git: Git, base: Tree, theirs: Tree, ours: Tree, p: string): Option<Option<string>> {
    MergeAt(git, At(base, p), At(theirs, p), At(ours, p))
  }

  function Merge(git: Git, base: Tree, theirs: Tree, ours: Tree): Option<Tree> {
    var paths := base.Keys + theirs.Keys + ours.Keys;
    if exists p | p in paths :: MergePath(git, base, theirs, ours, p).None? then None
    else Some(map p | p in paths && MergePath(git, base, theirs, ours, p).value.Some?
                :: MergePath(git, base, theirs, ours, p).value.value)
  }

  /** Paths all three sides have, each differently: only the content merge can settle them. */
  function ContentMerged(base: Tree, theirs: Tree, ours: Tree): set<string> {
    set p | p in base && p in theirs && p in ours && base[p] != theirs[p] && base[p] != ours[p] && theirs[p] != ours[p]
  }

  /** A commit the rebase left out: its parent, the tip whose turn it was, the paths that by then were
      tangled in that rebase (content merged, or changed by a skipped commit), and whether it was skipped
      because the upstream has the same patch or replayed and found to change nothing. */
  datatype Drop = Drop(commit: Commit, parent: Tree, onto: Tree, tangled: set<string>, applied: bool)

  /** The patches of a history from its k-th commit on. */
  function Patches(h: History, k: nat): (ps: seq<Patch>)
    requires k <= |h|
    ensures |ps| == |h| - k
  {
    seq(|h| - k, i requires 0 <= i < |h| - k => Patch(TreeAt(h, k + i), h[k + i].tree))
  }

  /** The upstream already has this patch, whether or not its tip still shows it. */
  predicate Applied(git: Git, news: seq<Patch>, base: Tree, tree: Tree) {
    exists i | 0 <= i < |news| :: git.same(news[i], Patch(base, tree))
  }

  function ChangedPaths(base: Tree, tree: Tree): set<string> {
    set p | p in base.Keys + tree.Keys && At(base, p) != At(tree, p)
  }

  /** The replayed commits, and those left out. */
  datatype Replayed = Replayed(own: History, dropped: seq<Drop>)

  /** `git rebase`: commits whose patch is among the upstream's new ones are skipped beforehand; the others
      are replayed by three-way merge and dropped when they change nothing. */
  function Replay(git: Git, news: seq<Patch>, up: History, base: Tree, own: History, tangled: set<string>): Option<Replayed>
    decreases |own|
  {
    if own == [] then Some(Replayed([], []))
    else
      var c := own[0];
      if Applied(git, news, base, c.tree) then
        var tangled' := tangled + ChangedPaths(base, c.tree);
        var r :- Replay(git, news, up, c.tree, own[1..], tangled');
        Some(r.(dropped := [Drop(c, base, Tip(up), tangled', true)] + r.dropped))
      else
        var t :- Merge(git, base, c.tree, Tip(up));
        var tangled' := tangled + ContentMerged(base, c.tree, Tip(up));
        if t == Tip(up) then
          var r :- Replay(git, news, up, c.tree, own[1..], tangled');
          Some(r.(dropped := [Drop(c, base, Tip(up), tangled', false)] + r.dropped))
        else
          var d := c.(tree := t);
          var r :- Replay(git, news, up + [d], c.tree, own[1..], tangled');
          Some(r.(own := [d] + r.own))
  }

  /** How many local commits the upstream already has. */
  function Shared(fork: History, own: History, up: History): (k: nat)
    ensures k <= |own|
    ensures k > 0 ==> fork + own[..k] <= up
    decreases |own|
  {
    if own == [] || !(fork + [own[0]] <= up) then 0
    else
      var k := Shared(fork + [own[0]], own[1..], up);
      assert fork + [own[0]] + own[1..][..k] == fork + own[..k + 1];
      assert k == 0 ==> own[..1] == [own[0]];
      1 + k
  }

  // ----- clones

  /** HEAD is `fork + own`; `upstream` is the remote-tracking branch. A clone whose rebase failed is
      wedged until something aborts or discards it. The three sets record, for every operation ever
      committed here, what became of it when it is no longer in HEAD. */
  datatype Clone = Clone(
    fork: History, own: History, upstream: History, wedged: bool,
    made: set<nat>, discarded: set<nat>, dropped: set<Drop>)

  datatype World = World(remote: History, clones: map<nat, Clone>)

  datatype Action =
    | Join
    | Make(commit: Commit)
    | Push
    | PushUnheard    // the remote took the push, the answer was lost
    | Fetch
    | Rebase
    | Abort
    | Discard

  datatype Step = Step(who: nat, action: Action)

  function Ops(h: History): set<nat> {
    set k | 0 <= k < |h| :: h[k].op
  }

  function Head(c: Clone): History {
    c.fork + c.own
  }

  predicate CanPush(w: World, c: Clone) {
    !c.wedged && w.remote <= Head(c)
  }

  /** The commits a rebase has to deal with, the tree they start from, and the upstream's new patches. */
  function Rest(c: Clone): History {
    c.own[Shared(c.fork, c.own, c.upstream)..]
  }

  function MergeBase(c: Clone): History {
    c.fork + c.own[..Shared(c.fork, c.own, c.upstream)]
  }

  function News(c: Clone): seq<Patch> {
    Patches(c.upstream, if |MergeBase(c)| <= |c.upstream| then |MergeBase(c)| else |c.upstream|)
  }

  function RebaseOf(git: Git, c: Clone): Option<Replayed> {
    Replay(git, News(c), c.upstream, Tip(MergeBase(c)), Rest(c), {})
  }

  function Rebased(git: Git, c: Clone): Clone {
    match RebaseOf(git, c)
    case None => c.(wedged := true)
    case Some(r) =>
      c.(fork := c.upstream, own := r.own, dropped := c.dropped + set i | 0 <= i < |r.dropped| :: r.dropped[i])
  }

  /** Rebase and hard reset need a remote-tracking branch, which a clone of an empty remote lacks. */
  predicate Tracks(c: Clone) {
    c.upstream != []
  }

  /** The label of an operation is its own. */
  predicate Fresh(w: World, op: nat) {
    op !in Ops(w.remote) && forall i | i in w.clones :: op !in w.clones[i].made
  }

  /** What `git commit` takes: a change, on a clone that is not in the middle of a failed rebase. */
  predicate CanMake(w: World, c: Clone, commit: Commit) {
    && !c.wedged && Fresh(w, commit.op)
    && commit.tree != Tip(Head(c)) && Respects(commit.kind, Tip(Head(c)), commit.tree)
  }

  function Updated(git: Git, w: World, c: Clone, a: Action): Clone {
    match a
    case Make(commit) =>
      if CanMake(w, c, commit)
      then c.(own := c.own + [commit], made := c.made + {commit.op}) else c
    case Push => if CanPush(w, c) then c.(fork := Head(c), own := [], upstream := Head(c)) else c
    case Fetch => c.(upstream := w.remote)
    case Rebase => if c.wedged || !Tracks(c) then c else Rebased(git, c)
    case Abort => c.(wedged := false)
    case Discard => if !Tracks(c) then c else c.(fork := c.upstream, own := [], wedged := false, discarded := c.discarded + Ops(c.own))
    case _ => c
  }

  function Next(git: Git, w: World, s: Step): World {
    if s.who !in w.clones then
      if s.action == Join then w.(clones := w.clones[s.who := Clone(w.remote, [], w.remote, false, {}, {}, {})]) else w
    else
      var c := w.clones[s.who];
      World(if (s.action == Push || s.action == PushUnheard) && CanPush(w, c) then Head(c) else w.remote,
            w.clones[s.who := Updated(git, w, c, s.action)])
  }

  function Exec(git: Git, w: World, run: seq<Step>): World {
    if run == [] then w else Next(git, Exec(git, w, run[..|run| - 1]), run[|run| - 1])
  }

  // ----- invariant

  /** Every commit respects its kind relative to the one before it. */
  ghost predicate LawfulFrom(base: Tree, h: History)
    decreases |h|
  {
    h != [] ==> Respects(h[0].kind, base, h[0].tree) && LawfulFrom(h[0].tree, h[1..])
  }

  ghost predicate Lawful(h: History) {
    LawfulFrom(map[], h)
  }

  /** The commit changed this path. */
  predicate Changed(d: Drop, p: string) {
    At(d.parent, p) != At(d.commit.tree, p)
  }

  /** The tip had the commit's own value there, or the content merge found nothing to add to it. */
  predicate Held(git: Git, d: Drop, p: string) {
    || At(d.onto, p) == At(d.commit.tree, p)
    || (p in d.parent && p in d.commit.tree && p in d.onto && d.onto[p] != d.parent[p]
        && git.text(d.parent[p], d.commit.tree[p], d.onto[p]) == Some(d.onto[p]))
  }

  predicate WasOn(remote: History, p: string, v: Option<string>) {
    exists k | 0 <= k <= |remote| :: At(TreeAt(remote, k), p) == v
  }

  /** The remote has the same patch somewhere in its history. */
  predicate PatchOn(git: Git, remote: History, d: Drop) {
    Applied(git, Patches(remote, 0), d.parent, d.commit.tree)
  }

  /** Why a commit could be left out, whatever its kind: the remote has the same patch; or every path it
      changed was held by the tip it was replayed onto, and every such path not tangled in that rebase
      was on the remote with the commit's own value. */
  ghost predicate Excused(git: Git, remote: History, d: Drop) {
    && Respects(d.commit.kind, d.parent, d.commit.tree)
    && (d.applied ==> PatchOn(git, remote, d))
    && (!d.applied ==>
         && (forall p | Changed(d, p) :: Held(git, d, p))
         && (forall p | Changed(d, p) && p !in d.tangled :: WasOn(remote, p, At(d.commit.tree, p))))
  }

  predicate DistinctOps(h: History) {
    forall i, j | 0 <= i < j < |h| :: h[i].op != h[j].op
  }

  /** Every commit changes something. */
  predicate NonEmptyFrom(base: Tree, h: History)
    decreases |h|
  {
    h != [] ==> h[0].tree != base && NonEmptyFrom(h[0].tree, h[1..])
  }

  /** A local commit is on the remote only as part of a push whose answer was lost. */
  predicate OnlyUnheard(remote: History, fork: History, own: History) {
    forall j | 0 <= j < |own| && own[j].op in Ops(remote) :: fork + own[..j + 1] <= remote
  }

  predicate DroppedOp(c: Clone, op: nat) {
    exists d | d in c.dropped :: d.commit.op == op
  }

  /** Each operation of the clone is in one place. */
  ghost predicate OpsInv(remote: History, c: Clone) {
    && DistinctOps(c.own) && Ops(c.own) <= c.made && OnlyUnheard(remote, c.fork, c.own)
    && NonEmptyFrom(Tip(c.fork), c.own)
    && (forall d | d in c.dropped ::
          d.commit.op in c.made && d.commit.op !in Ops(remote) && d.commit.op !in Ops(c.own))
  }

  ghost predicate CloneInv(git: Git, remote: History, c: Clone) {
    && Lawful(Head(c))
    && c.fork <= c.upstream <= remote
    && (forall o | o in c.made :: o in Ops(Head(c)) || o in c.discarded || DroppedOp(c, o))
    && (forall d | d in c.dropped :: Excused(git, remote, d))
    && OpsInv(remote, c)
  }

  ghost predicate Inv(git: Git, w: World) {
    && Lawful(w.remote)
    && (forall i | i in w.clones :: CloneInv(git, w.remote, w.clones[i]))
    && (forall i, j | i in w.clones && j in w.clones && i != j :: w.clones[i].made !! w.clones[j].made)
  }

  // ----- merging

  /** Replaying a registration: it lands on a tip without the file, is dropped where the file is
      already the same, and conflicts otherwise. */
  lemma MergeRegister(git: Git, base: Tree, path: string, content: string, ours: Tree)
    requires path !in base
    ensures Merge(git, base, base[path := content], ours)
         == match At(ours, path)
            case None => Some(ours[path := content])
            case Some(c) => if c == content then Some(ours) else None
  {
    var theirs := base[path := content];
    var paths := base.Keys + theirs.Keys + ours.Keys;
    assert path in paths;
    assert forall p | p != path :: MergePath(git, base, theirs, ours, p) == Some(At(ours, p));
    if At(ours, path).None? {
      assert MergePath(git, base, theirs, ours, path) == Some(Some(content));
      assert Merge(git, base, theirs, ours).value == ours[path := content];
    } else if ours[path] == content {
      assert MergePath(git, base, theirs, ours, path) == Some(Some(content));
      assert Merge(git, base, theirs, ours).value == ours;
    } else {
      assert MergePath(git, base, theirs, ours, path).None?;
    }
  }

  lemma MergeInit(git: Git, base: Tree, theirs: Tree, ours: Tree)
    requires Respects(Init, base, theirs) && Merge(git, base, theirs, ours).Some?
    ensures Respects(Init, ours, Merge(git, base, theirs, ours).value)
  {
    var t := Merge(git, base, theirs, ours).value;
    forall p | p in ours && p != ".gitignore" ensures p in t && t[p] == ours[p] {
      assert MergePath(git, base, theirs, ours, p).Some?;
    }
  }

  /** A merge leaves the tip as it is exactly when every path the commit changed is held there. */
  lemma MergeIsOurs(git: Git, c: Commit, base: Tree, ours: Tree, tangled: set<string>, applied: bool)
    ensures var d := Drop(c, base, ours, tangled, applied);
      Merge(git, base, c.tree, ours) == Some(ours) <==> forall p | Changed(d, p) :: Held(git, d, p)
  {
    var d := Drop(c, base, ours, tangled, applied);
    var paths := base.Keys + c.tree.Keys + ours.Keys;
    forall p ensures MergePath(git, base, c.tree, ours, p) == Some(At(ours, p)) <==> (Changed(d, p) ==> Held(git, d, p)) {
    }
    hide MergePath;
    if forall p | Changed(d, p) :: Held(git, d, p) {
      assert forall p :: MergePath(git, base, c.tree, ours, p) == Some(At(ours, p));
      assert Merge(git, base, c.tree, ours).value == ours;
    } else {
      var p :| Changed(d, p) && !Held(git, d, p);
      assert p in paths;
      assert MergePath(git, base, c.tree, ours, p) != Some(At(ours, p));
    }
  }

  /** What a replayed commit still respects, and what a dropped one leaves behind. */
  lemma MergeRespects(git: Git, base: Tree, c: Commit, ours: Tree)
    requires Respects(c.kind, base, c.tree) && Merge(git, base, c.tree, ours).Some?
    ensures var t := Merge(git, base, c.tree, ours).value;
      && (t != ours ==> Respects(c.kind, ours, t))
      && (t == ours && c.kind.Register? ==> At(ours, c.kind.path) == Some(c.kind.content))
  {
    hide Merge;
    match c.kind {
      case Register(path, content) => MergeRegister(git, base, path, content, ours);
      case Init => MergeInit(git, base, c.tree, ours);
      case Other =>
    }
  }

  // ----- replaying

  function TipFrom(base: Tree, h: History): Tree {
    if h == [] then base else Tip(h)
  }

  lemma {:induction false} LawfulSplit(base: Tree, a: History, b: History)
    ensures LawfulFrom(base, a + b) <==> LawfulFrom(base, a) && LawfulFrom(TipFrom(base, a), b)
    decreases |a|
  {
    hide Respects;
    if a == [] {
      assert a + b == b;
    } else {
      assert (a + b)[1..] == a[1..] + b;
      LawfulSplit(a[0].tree, a[1..], b);
    }
  }

  lemma {:induction false} LawfulAt(base: Tree, h: History, k: nat)
    requires LawfulFrom(base, h) && k < |h|
    ensures Respects(h[k].kind, TipFrom(base, h[..k]), h[k].tree)
    decreases |h|
  {
    hide Respects;
    if k > 0 {
      LawfulAt(h[0].tree, h[1..], k - 1);
      assert h[1..][..k - 1] == h[1..k];
    }
  }

  lemma OpsConcat(a: History, b: History)
    ensures Ops(a + b) == Ops(a) + Ops(b)
  {
    var g := a + b;
    forall o ensures o in Ops(g) <==> o in Ops(a) || o in Ops(b) {
      if o in Ops(a) {
        var k :| 0 <= k < |a| && a[k].op == o;
        assert g[k].op == o;
      }
      if o in Ops(b) {
        var k :| 0 <= k < |b| && b[k].op == o;
        assert g[|a| + k].op == o;
      }
    }
  }

  lemma OpsCons(c: Commit, h: History)
    ensures Ops([c] + h) == {c.op} + Ops(h)
  {
    OpsConcat([c], h);
    assert Ops([c]) == {c.op} by {
      assert [c][0].op == c.op;
    }
  }

  function DropOps(ds: seq<Drop>): set<nat> {
    set k | 0 <= k < |ds| :: ds[k].commit.op
  }

  lemma DropOpsCons(d: Drop, ds: seq<Drop>)
    ensures DropOps([d] + ds) == {d.commit.op} + DropOps(ds)
  {
    var g := [d] + ds;
    assert g[0] == d;
    forall o | o in DropOps(ds) ensures o in DropOps(g) {
      var k :| 0 <= k < |ds| && ds[k].commit.op == o;
      assert g[k + 1].commit.op == o;
    }
  }

  /** One turn of the replay: what is left out or kept, and how it goes on. */
  datatype Turn = Turn(up: History, tangled: set<string>, kept: History, left: seq<Drop>)

  function TurnOf(git: Git, news: seq<Patch>, up: History, base: Tree, c: Commit, tangled: set<string>): Option<Turn> {
    if Applied(git, news, base, c.tree) then
      var tangled' := tangled + ChangedPaths(base, c.tree);
      Some(Turn(up, tangled', [], [Drop(c, base, Tip(up), tangled', true)]))
    else
      var t :- Merge(git, base, c.tree, Tip(up));
      var tangled' := tangled + ContentMerged(base, c.tree, Tip(up));
      if t == Tip(up) then Some(Turn(up, tangled', [], [Drop(c, base, Tip(up), tangled', false)]))
      else Some(Turn(up + [c.(tree := t)], tangled', [c.(tree := t)], []))
  }

  lemma ReplayTurns(git: Git, news: seq<Patch>, up: History, base: Tree, own: History, tangled: set<string>)
    requires own != []
    ensures var turn := TurnOf(git, news, up, base, own[0], tangled);
      var r := Replay(git, news, up, base, own, tangled);
      if turn.None? then r.None?
      else
        var rest := Replay(git, news, turn.value.up, own[0].tree, own[1..], turn.value.tangled);
        r == if rest.None? then None
             else Some(Replayed(turn.value.kept + rest.value.own, turn.value.left + rest.value.dropped))
  {
    hide Merge, Applied, ContentMerged, ChangedPaths;
    var turn := TurnOf(git, news, up, base, own[0], tangled);
    if turn.Some? {
      var rest := Replay(git, news, turn.value.up, own[0].tree, own[1..], turn.value.tangled);
      if rest.Some? {
        assert [] + rest.value.own == rest.value.own && [] + rest.value.dropped == rest.value.dropped;
      }
    }
  }

  /** The i-th commit left out is this turn's or a later one's. */
  lemma DropIsOf(git: Git, news: seq<Patch>, up: History, base: Tree, own: History, tangled: set<string>, i: nat)
    requires Replay(git, news, up, base, own, tangled).Some?
    requires i < |Replay(git, news, up, base, own, tangled).value.dropped|
    ensures own != [] && TurnOf(git, news, up, base, own[0], tangled).Some?
    ensures var t := TurnOf(git, news, up, base, own[0], tangled).value;
      var rest := Replay(git, news, t.up, own[0].tree, own[1..], t.tangled);
      && rest.Some? && |t.left| <= 1
      && (i < |t.left| ==> Replay(git, news, up, base, own, tangled).value.dropped[i] == t.left[0])
      && (i >= |t.left| ==>
           && i - |t.left| < |rest.value.dropped|
           && Replay(git, news, up, base, own, tangled).value.dropped[i] == rest.value.dropped[i - |t.left|])
      && (t.left != [] ==> t.left[0].commit == own[0] && t.left[0].parent == base && t.left[0].onto == Tip(up))
  {
    assert own != [];
    hide Replay, Merge, Applied, ContentMerged, ChangedPaths;
    ReplayTurns(git, news, up, base, own, tangled);
    TurnDrops(git, news, up, base, own[0], tangled);
    hide TurnOf;
  }

  /** What a turn keeps still respects its kind and changes something; the operation is in one place. */
  lemma TurnLawful(git: Git, news: seq<Patch>, up: History, base: Tree, c: Commit, tangled: set<string>)
    requires Respects(c.kind, base, c.tree) && TurnOf(git, news, up, base, c, tangled).Some?
    ensures var t := TurnOf(git, news, up, base, c, tangled).value;
      && (t.kept == [] ==> t.up == up && |t.left| == 1 && t.left[0].commit == c && t.left[0].parent == base && t.left[0].onto == Tip(up))
      && (t.kept != [] ==>
           && t.left == [] && t.kept == [c.(tree := Tip(t.up))] && t.up == up + t.kept
           && Respects(c.kind, Tip(up), Tip(t.up)) && Tip(t.up) != Tip(up))
  {
    hide Merge, Applied, ContentMerged, ChangedPaths, Respects;
    if !Applied(git, news, base, c.tree) {
      MergeRespects(git, base, c, Tip(up));
    }
  }

  lemma {:induction false} ReplayLawful(git: Git, news: seq<Patch>, up: History, base: Tree, own: History, tangled: set<string>)
    requires LawfulFrom(base, own) && Replay(git, news, up, base, own, tangled).Some?
    ensures var r := Replay(git, news, up, base, own, tangled).value;
      && LawfulFrom(Tip(up), r.own) && NonEmptyFrom(Tip(up), r.own)
      && Ops(own) == Ops(r.own) + DropOps(r.dropped)
      && (forall i | 0 <= i < |r.dropped| :: Respects(r.dropped[i].commit.kind, r.dropped[i].parent, r.dropped[i].commit.tree))
    decreases |own|
  {
    hide Respects, Ops, DropOps, TurnOf;
    if own == [] {
      NoOps();
    } else {
      hide Replay;
      var c := own[0];
      ReplayTurns(git, news, up, base, own, tangled);
      TurnLawful(git, news, up, base, c, tangled);
      var t := TurnOf(git, news, up, base, c, tangled).value;
      ReplayLawful(git, news, t.up, c.tree, own[1..], t.tangled);
      var rest := Replay(git, news, t.up, c.tree, own[1..], t.tangled).value;
      assert own == [c] + own[1..];
      OpsCons(c, own[1..]);
      if t.kept == [] {
        assert t.kept + rest.own == rest.own && t.left == [t.left[0]];
        DropOpsCons(t.left[0], rest.dropped);
      } else {
        assert t.left + rest.dropped == rest.dropped;
        assert (t.kept + rest.own)[1..] == rest.own && t.kept == [t.kept[0]];
        OpsCons(t.kept[0], rest.own);
      }
    }
  }

  lemma NoOps()
    ensures Ops([]) == {} && DropOps([]) == {}
  {
  }

  lemma DistinctCons(c: Commit, h: History)
    ensures DistinctOps([c] + h) <==> DistinctOps(h) && c.op !in Ops(h)
  {
    var g := [c] + h;
    if DistinctOps(g) {
      forall i, j | 0 <= i < j < |h| ensures h[i].op != h[j].op {
        assert g[i + 1].op != g[j + 1].op;
      }
      forall k | 0 <= k < |h| ensures h[k].op != c.op {
        assert g[0].op != g[k + 1].op;
      }
    }
  }

  lemma {:induction false} ReplayDistinct(git: Git, news: seq<Patch>, up: History, base: Tree, own: History, tangled: set<string>)
    requires LawfulFrom(base, own) && DistinctOps(own) && Replay(git, news, up, base, own, tangled).Some?
    ensures var r := Replay(git, news, up, base, own, tangled).value;
      DistinctOps(r.own) && Ops(r.own) !! DropOps(r.dropped)
    decreases |own|
  {
    hide Respects, Ops, DropOps, TurnOf, DistinctOps;
    if own == [] {
      NoOps();
      DistinctNone();
    } else {
      hide Replay;
      var c := own[0];
      ReplayTurns(git, news, up, base, own, tangled);
      TurnLawful(git, news, up, base, c, tangled);
      var t := TurnOf(git, news, up, base, c, tangled).value;
      assert own == [c] + own[1..];
      DistinctCons(c, own[1..]);
      ReplayDistinct(git, news, t.up, c.tree, own[1..], t.tangled);
      ReplayLawful(git, news, t.up, c.tree, own[1..], t.tangled);
      var rest := Replay(git, news, t.up, c.tree, own[1..], t.tangled).value;
      if t.kept == [] {
        assert t.kept + rest.own == rest.own && t.left == [t.left[0]];
        DropOpsCons(t.left[0], rest.dropped);
      } else {
        assert t.left + rest.dropped == rest.dropped && t.kept == [t.kept[0]];
        DistinctCons(t.kept[0], rest.own);
        OpsCons(t.kept[0], rest.own);
      }
    }
  }

  lemma DistinctNone()
    ensures DistinctOps([])
  {
  }

  /** What a successful merge makes of a path: ours if theirs left it alone, theirs if the content did not
      have to be merged. */
  lemma MergedPath(git: Git, base: Tree, theirs: Tree, ours: Tree, p: string)
    requires Merge(git, base, theirs, ours).Some?
    ensures var t := Merge(git, base, theirs, ours).value;
      && (At(theirs, p) == At(base, p) ==> At(t, p) == At(ours, p))
      && (At(theirs, p) != At(base, p) && p !in ContentMerged(base, theirs, ours) ==> At(t, p) == At(theirs, p))
      && (At(ours, p) == At(base, p) ==> At(t, p) == At(theirs, p) && p !in ContentMerged(base, theirs, ours))
  {
    assert p in base.Keys + theirs.Keys + ours.Keys ==> MergePath(git, base, theirs, ours, p).Some?;
  }

  /** A turn at a path: left alone if the commit did not change it, the commit's value if it did and the
      path is not tangled by this turn. */
  lemma TurnAtPath(git: Git, news: seq<Patch>, up: History, base: Tree, c: Commit, tangled: set<string>, p: string)
    requires TurnOf(git, news, up, base, c, tangled).Some?
    ensures var t := TurnOf(git, news, up, base, c, tangled).value;
      && tangled <= t.tangled && (t.left != [] ==> t.left[0].tangled == t.tangled && |t.left| == 1)
      && (At(c.tree, p) == At(base, p) ==> At(Tip(t.up), p) == At(Tip(up), p))
      && (At(c.tree, p) != At(base, p) && p !in t.tangled ==> At(Tip(t.up), p) == At(c.tree, p))
      && (At(c.tree, p) != At(base, p) && p !in t.tangled && t.left != [] ==>
           At(Tip(up), p) == At(c.tree, p) && !t.left[0].applied)
  {
    hide Merge, Applied, ContentMerged;
    if !Applied(git, news, base, c.tree) {
      MergedPath(git, base, c.tree, Tip(up), p);
    }
  }

  /** Where the tip agrees with the base and nothing gets tangled, every later change of that path goes
      through. */
  lemma {:induction false} SyncedIsKept(git: Git, news: seq<Patch>, up: History, base: Tree, own: History, tangled: set<string>, p: string, i: nat)
    requires Replay(git, news, up, base, own, tangled).Some? && At(Tip(up), p) == At(base, p)
    requires i < |Replay(git, news, up, base, own, tangled).value.dropped|
    requires p !in Replay(git, news, up, base, own, tangled).value.dropped[i].tangled
    ensures !Changed(Replay(git, news, up, base, own, tangled).value.dropped[i], p)
    decreases |own|
  {
    hide TurnOf, Replay, TreeAt;
    DropIsOf(git, news, up, base, own, tangled, i);
    var c := own[0];
    var t := TurnOf(git, news, up, base, c, tangled).value;
    TurnAtPath(git, news, up, base, c, tangled, p);
    if i >= |t.left| {
      TangledGrows(git, news, t.up, c.tree, own[1..], t.tangled, i - |t.left|);
      SyncedIsKept(git, news, t.up, c.tree, own[1..], t.tangled, p, i - |t.left|);
    }
  }

  lemma TurnDrops(git: Git, news: seq<Patch>, up: History, base: Tree, c: Commit, tangled: set<string>)
    requires TurnOf(git, news, up, base, c, tangled).Some?
    ensures var t := TurnOf(git, news, up, base, c, tangled).value;
      |t.left| <= 1 && (t.left != [] ==> t.left[0].commit == c && t.left[0].parent == base && t.left[0].onto == Tip(up))
  {
    hide Merge, Applied, ContentMerged, ChangedPaths;
  }

  lemma {:induction false} TangledGrows(git: Git, news: seq<Patch>, up: History, base: Tree, own: History, tangled: set<string>, i: nat)
    requires Replay(git, news, up, base, own, tangled).Some?
    requires i < |Replay(git, news, up, base, own, tangled).value.dropped|
    ensures tangled <= Replay(git, news, up, base, own, tangled).value.dropped[i].tangled
    decreases |own|
  {
    hide TurnOf, Replay, TreeAt;
    DropIsOf(git, news, up, base, own, tangled, i);
    var c := own[0];
    var t := TurnOf(git, news, up, base, c, tangled).value;
    TurnAtPath(git, news, up, base, c, tangled, "");
    if i >= |t.left| {
      TangledGrows(git, news, t.up, c.tree, own[1..], t.tangled, i - |t.left|);
    }
  }

  lemma TurnHeld(git: Git, news: seq<Patch>, up: History, base: Tree, c: Commit, tangled: set<string>)
    requires TurnOf(git, news, up, base, c, tangled).Some?
    ensures var t := TurnOf(git, news, up, base, c, tangled).value;
      t.left != [] ==>
        var d := t.left[0];
        if d.applied then Applied(git, news, base, c.tree) else forall p | Changed(d, p) :: Held(git, d, p)
  {
    hide Merge, Applied, ContentMerged, ChangedPaths, Changed, Held;
    var t := TurnOf(git, news, up, base, c, tangled).value;
    MergeIsOurs(git, c, base, Tip(up), t.tangled, false);
  }

  /** A commit left out, of any kind: it was skipped as already applied, or every path it changed was held
      by the tip it was replayed onto. */
  lemma {:induction false} DroppedIsHeld(git: Git, news: seq<Patch>, up: History, base: Tree, own: History, tangled: set<string>, i: nat)
    requires Replay(git, news, up, base, own, tangled).Some?
    requires i < |Replay(git, news, up, base, own, tangled).value.dropped|
    ensures var d := Replay(git, news, up, base, own, tangled).value.dropped[i];
      if d.applied then Applied(git, news, d.parent, d.commit.tree) else forall p | Changed(d, p) :: Held(git, d, p)
    decreases |own|
  {
    hide TurnOf, Replay, TreeAt, Applied, Changed, Held;
    DropIsOf(git, news, up, base, own, tangled, i);
    var c := own[0];
    var t := TurnOf(git, news, up, base, c, tangled).value;
    TurnHeld(git, news, up, base, c, tangled);
    if i >= |t.left| {
      DroppedIsHeld(git, news, t.up, c.tree, own[1..], t.tangled, i - |t.left|);
    }
  }

  /** And unless the path was tangled on the way, the upstream itself had a replayed commit's value there. */
  lemma {:induction false} UpstreamHadIt(git: Git, news: seq<Patch>, up: History, base: Tree, own: History, tangled: set<string>, p: string, i: nat)
    requires Replay(git, news, up, base, own, tangled).Some?
    requires i < |Replay(git, news, up, base, own, tangled).value.dropped|
    requires var d := Replay(git, news, up, base, own, tangled).value.dropped[i]; Changed(d, p) && p !in d.tangled
    ensures At(Tip(up), p) == At(Replay(git, news, up, base, own, tangled).value.dropped[i].commit.tree, p)
    decreases |own|
  {
    hide TurnOf, Replay, TreeAt;
    DropIsOf(git, news, up, base, own, tangled, i);
    var c := own[0];
    var t := TurnOf(git, news, up, base, c, tangled).value;
    TurnAtPath(git, news, up, base, c, tangled, p);
    if i >= |t.left| {
      TangledGrows(git, news, t.up, c.tree, own[1..], t.tangled, i - |t.left|);
      UpstreamHadIt(git, news, t.up, c.tree, own[1..], t.tangled, p, i - |t.left|);
      if At(c.tree, p) != At(base, p) {
        SyncedIsKept(git, news, t.up, c.tree, own[1..], t.tangled, p, i - |t.left|);
      }
    }
  }

  // ----- a rebase onto a prefix of HEAD

  lemma MergeForward(git: Git, base: Tree, theirs: Tree)
    ensures Merge(git, base, theirs, base) == Some(theirs)
  {
    assert forall p :: MergePath(git, base, theirs, base, p) == Some(At(theirs, p));
    assert Merge(git, base, theirs, base).value == theirs;
  }

  /** Commits replayed onto their own parent, with nothing new upstream, stay as they are. */
  lemma {:induction false} ReplayInPlace(git: Git, up: History, own: History, tangled: set<string>)
    requires NonEmptyFrom(Tip(up), own)
    ensures Replay(git, [], up, Tip(up), own, tangled) == Some(Replayed(own, []))
    decreases |own|
  {
    hide Merge, ContentMerged;
    if own != [] {
      var c := own[0];
      MergeForward(git, Tip(up), c.tree);
      assert c.(tree := c.tree) == c && Tip(up + [c]) == c.tree;
      ReplayInPlace(git, up + [c], own[1..], tangled + ContentMerged(Tip(up), c.tree, Tip(up)));
      assert [c] + own[1..] == own;
    }
  }

  // ----- every step keeps the invariant

  lemma WasOnGrows(remote: History, more: History, p: string, v: Option<string>)
    requires remote <= more && WasOn(remote, p, v)
    ensures WasOn(more, p, v)
  {
    var k :| 0 <= k <= |remote| && At(TreeAt(remote, k), p) == v;
    assert TreeAt(more, k) == TreeAt(remote, k);
  }

  lemma PatchesGrow(remote: History, more: History, k: nat, i: nat)
    requires remote <= more && k + i < |remote|
    ensures Patches(more, 0)[k + i] == Patches(remote, k)[i]
  {
    assert TreeAt(more, k + i) == TreeAt(remote, k + i) && more[k + i] == remote[k + i];
  }

  lemma PatchOnGrows(git: Git, remote: History, more: History, k: nat, base: Tree, tree: Tree)
    requires remote <= more && k <= |remote| && Applied(git, Patches(remote, k), base, tree)
    ensures Applied(git, Patches(more, 0), base, tree)
  {
    hide Patches;
    var i :| 0 <= i < |Patches(remote, k)| && git.same(Patches(remote, k)[i], Patch(base, tree));
    PatchesGrow(remote, more, k, i);
  }

  lemma ExcusedGrows(git: Git, remote: History, more: History, d: Drop)
    requires remote <= more && Excused(git, remote, d)
    ensures Excused(git, more, d)
  {
    hide WasOn, Changed, Held, Applied, Respects;
    if d.applied {
      PatchOnGrows(git, remote, more, 0, d.parent, d.commit.tree);
    } else {
      forall p | Changed(d, p) && p !in d.tangled ensures WasOn(more, p, At(d.commit.tree, p)) {
        WasOnGrows(remote, more, p, At(d.commit.tree, p));
      }
    }
  }

  /** The remote may grow by anyone else's operations. */
  lemma CloneInvGrows(git: Git, remote: History, more: History, c: Clone)
    requires remote <= more && CloneInv(git, remote, c)
    requires forall o | o in Ops(more) && o in c.made :: o in Ops(remote)
    ensures CloneInv(git, more, c)
  {
    hide Lawful, Excused, NonEmptyFrom, DistinctOps;
    forall d | d in c.dropped ensures Excused(git, more, d) {
      ExcusedGrows(git, remote, more, d);
    }
    forall j | 0 <= j < |c.own| && c.own[j].op in Ops(more) ensures c.fork + c.own[..j + 1] <= more {
      assert c.own[j].op in Ops(c.own);
    }
  }

  lemma RebaseKeepsInv(git: Git, remote: History, c: Clone)
    requires Lawful(remote) && CloneInv(git, remote, c)
    ensures CloneInv(git, remote, Rebased(git, c))
  {
    hide Respects, Replay, LawfulFrom, Excused, Ops, DropOps, Rest, MergeBase, News, OpsInv;
    RestFacts(c);
    LawfulSplit(map[], MergeBase(c), Rest(c));
    TipFromNothing(MergeBase(c));
    var r := RebaseOf(git, c);
    if r.Some? {
      ReplayLawful(git, News(c), c.upstream, Tip(MergeBase(c)), Rest(c), {});
      UpstreamLawful(remote, c.upstream);
      LawfulSplit(map[], c.upstream, r.value.own);
      TipFromNothing(c.upstream);
      RebaseAccounts(c, MergeBase(c), Rest(c), r.value);
      DroppedExcused(git, remote, c);
      DroppedOps(r.value.dropped);
      RebaseKeepsOps(git, remote, c);
    } else {
      WedgedOps(remote, c);
    }
  }

  lemma WedgedOps(remote: History, c: Clone)
    requires OpsInv(remote, c)
    ensures OpsInv(remote, c.(wedged := true))
  {
  }

  /** The rebase works on the part of HEAD that the upstream does not have. */
  lemma RestFacts(c: Clone)
    requires c.fork <= c.upstream
    ensures Head(c) == MergeBase(c) + Rest(c) && MergeBase(c) <= c.upstream
    ensures News(c) == Patches(c.upstream, |MergeBase(c)|)
  {
    hide Shared, Patches;
    var k := Shared(c.fork, c.own, c.upstream);
    assert c.own == c.own[..k] + c.own[k..];
    assert k == 0 ==> c.fork + c.own[..k] == c.fork;
  }

  lemma TipFromNothing(h: History)
    ensures TipFrom(map[], h) == Tip(h)
  {
  }

  lemma UpstreamLawful(remote: History, up: History)
    requires Lawful(remote) && up <= remote
    ensures Lawful(up)
  {
    hide LawfulFrom;
    assert remote == up + remote[|up|..];
    LawfulSplit(map[], up, remote[|up|..]);
  }

  lemma DroppedExcused(git: Git, remote: History, c: Clone)
    requires Lawful(Head(c)) && c.fork <= c.upstream <= remote && RebaseOf(git, c).Some?
    ensures var ds := RebaseOf(git, c).value.dropped; forall i | 0 <= i < |ds| :: Excused(git, remote, ds[i])
  {
    hide LawfulFrom, Replay, Changed, Held, Applied, Rest, MergeBase, News, Respects;
    RestFacts(c);
    LawfulSplit(map[], MergeBase(c), Rest(c));
    TipFromNothing(MergeBase(c));
    var up, base, own := c.upstream, Tip(MergeBase(c)), Rest(c);
    var ds := RebaseOf(git, c).value.dropped;
    ReplayLawful(git, News(c), up, base, own, {});
    assert TreeAt(remote, |up|) == Tip(up);
    forall i | 0 <= i < |ds| ensures Excused(git, remote, ds[i]) {
      DroppedIsHeld(git, News(c), up, base, own, {}, i);
      if ds[i].applied {
        PatchOnGrows(git, up, remote, |MergeBase(c)|, ds[i].parent, ds[i].commit.tree);
      } else {
        forall p | Changed(ds[i], p) && p !in ds[i].tangled ensures WasOn(remote, p, At(ds[i].commit.tree, p)) {
          UpstreamHadIt(git, News(c), up, base, own, {}, p, i);
        }
      }
    }
  }

  lemma DroppedOps(ds: seq<Drop>)
    ensures forall o | o in DropOps(ds) :: exists i | 0 <= i < |ds| :: ds[i].commit.op == o
    ensures forall i | 0 <= i < |ds| :: ds[i].commit.op in DropOps(ds)
  {
  }

  lemma OpsPrefix(a: History, b: History)
    requires a <= b
    ensures Ops(a) <= Ops(b)
  {
    assert forall k | 0 <= k < |a| :: a[k] == b[k];
  }

  lemma RebaseAccounts(c: Clone, before: History, rest: History, r: Replayed)
    requires Head(c) == before + rest && before <= c.upstream && Ops(rest) == Ops(r.own) + DropOps(r.dropped)
    ensures Ops(Head(c)) <= Ops(c.upstream + r.own) + DropOps(r.dropped)
  {
    OpsConcat(before, rest);
    OpsConcat(c.upstream, r.own);
    OpsPrefix(before, c.upstream);
    hide Ops;
  }

  lemma {:induction false} NonEmptySplit(base: Tree, a: History, b: History)
    ensures NonEmptyFrom(base, a + b) <==> NonEmptyFrom(base, a) && NonEmptyFrom(TipFrom(base, a), b)
    decreases |a|
  {
    if a == [] {
      assert a + b == b;
    } else {
      assert (a + b)[1..] == a[1..] + b;
      NonEmptySplit(a[0].tree, a[1..], b);
    }
  }

  lemma TipExtends(a: History, b: History)
    ensures Tip(a + b) == TipFrom(Tip(a), b)
  {
    assert b == [] ==> a + b == a;
  }

  /** No shared commit is left over: what the upstream has beyond `k` is not the next local commit. */
  lemma {:induction false} SharedIsMaximal(fork: History, own: History, up: History, j: nat)
    requires fork <= up && j < |own| && fork + own[..j + 1] <= up
    ensures j < Shared(fork, own, up)
    decreases |own|
  {
    assert fork + [own[0]] <= fork + own[..j + 1] by {
      assert own[..j + 1][0] == own[0];
    }
    if j > 0 {
      assert fork + [own[0]] + own[1..][..j] == fork + own[..j + 1];
      SharedIsMaximal(fork + [own[0]], own[1..], up, j - 1);
    }
  }

  /** Prefixes of one history are comparable. */
  lemma Comparable(a: History, b: History, h: History)
    requires a <= h && b <= h
    ensures a <= b || b <= a
  {
  }

  /** Either the upstream lies within HEAD, and the rebase changes nothing, or none of the commits to
      replay is on the remote. */
  lemma RebaseCases(remote: History, c: Clone)
    requires c.fork <= c.upstream <= remote && OpsInv(remote, c)
    ensures c.upstream == MergeBase(c) || Ops(Rest(c)) !! Ops(remote)
  {
    hide Shared, NonEmptyFrom, DistinctOps, Ops;
    var k := Shared(c.fork, c.own, c.upstream);
    if j :| k <= j < |c.own| && c.own[j].op in Ops(remote) {
      var long := c.fork + c.own[..j + 1];
      Comparable(long, c.upstream, remote);
      if long <= c.upstream {
        SharedIsMaximal(c.fork, c.own, c.upstream, j);
      }
      WithinOwn(c, j, k);
    } else {
      RestAbsent(remote, c.own, k);
    }
  }

  lemma WithinOwn(c: Clone, j: nat, k: nat)
    requires k <= j < |c.own| && k == Shared(c.fork, c.own, c.upstream)
    requires c.fork <= c.upstream <= c.fork + c.own[..j + 1]
    ensures c.upstream == c.fork + c.own[..k]
  {
    hide Shared;
    RestFacts(c);
    var m := |c.upstream| - |c.fork|;
    assert c.upstream == c.fork + c.own[..m];
    if m > k {
      SharedIsMaximal(c.fork, c.own, c.upstream, m - 1);
    }
    assert k <= m;
  }

  lemma RebaseKeepsOps(git: Git, remote: History, c: Clone)
    requires Lawful(Head(c)) && c.fork <= c.upstream <= remote && OpsInv(remote, c) && RebaseOf(git, c).Some?
    ensures OpsInv(remote, Rebased(git, c))
  {
    hide Shared, Replay, LawfulFrom, NonEmptyFrom, DistinctOps, Ops, DropOps, OnlyUnheard, News;
    var k := Shared(c.fork, c.own, c.upstream);
    RestFacts(c);
    LawfulSplit(map[], MergeBase(c), Rest(c));
    TipFromNothing(MergeBase(c));
    RestOps(c.own, k);
    RebaseCases(remote, c);
    var r := RebaseOf(git, c).value;
    if c.upstream == MergeBase(c) {
      assert c.own == c.own[..k] + Rest(c);
      NonEmptySplit(Tip(c.fork), c.own[..k], Rest(c));
      TipExtends(c.fork, c.own[..k]);
      assert News(c) == [];
      ReplayInPlace(git, c.upstream, Rest(c), {});
      UnheardRest(remote, c.fork, c.own, k);
    } else {
      ReplayLawful(git, News(c), c.upstream, Tip(MergeBase(c)), Rest(c), {});
      ReplayDistinct(git, News(c), c.upstream, Tip(MergeBase(c)), Rest(c), {});
      DroppedOps(r.dropped);
      AbsentUnheard(remote, c.upstream, r.own);
    }
  }

  lemma RestOps(own: History, k: nat)
    requires k <= |own| && DistinctOps(own)
    ensures DistinctOps(own[k..]) && Ops(own[k..]) <= Ops(own)
  {
    var rest := own[k..];
    assert forall j | 0 <= j < |rest| :: rest[j] == own[k + j];
  }

  lemma RestAbsent(remote: History, own: History, k: nat)
    requires k <= |own| && forall j | k <= j < |own| :: own[j].op !in Ops(remote)
    ensures Ops(own[k..]) !! Ops(remote)
  {
    var rest := own[k..];
    assert forall j | 0 <= j < |rest| :: rest[j] == own[k + j];
  }

  lemma AbsentUnheard(remote: History, fork: History, own: History)
    requires Ops(own) !! Ops(remote)
    ensures OnlyUnheard(remote, fork, own)
  {
    assert forall j | 0 <= j < |own| :: own[j].op in Ops(own);
  }

  lemma UnheardRest(remote: History, fork: History, own: History, k: nat)
    requires k <= |own| && OnlyUnheard(remote, fork, own)
    ensures OnlyUnheard(remote, fork + own[..k], own[k..])
  {
    hide Ops;
    var rest := own[k..];
    forall j | 0 <= j < |rest| && rest[j].op in Ops(remote) ensures fork + own[..k] + rest[..j + 1] <= remote {
      assert rest[j] == own[k + j];
      assert fork + own[..k] + rest[..j + 1] == fork + own[..k + j + 1];
    }
  }

  lemma MakeKeepsInv(git: Git, w: World, c: Clone, commit: Commit)
    requires CloneInv(git, w.remote, c) && CanMake(w, c, commit) && commit.op !in c.made
    ensures CloneInv(git, w.remote, c.(own := c.own + [commit], made := c.made + {commit.op}))
  {
    hide Respects, Excused, LawfulFrom, NonEmptyFrom, OnlyUnheard, DistinctOps;
    var d := c.(own := c.own + [commit], made := c.made + {commit.op});
    assert Head(d) == Head(c) + [commit];
    LawfulSplit(map[], Head(c), [commit]);
    TipFromNothing(Head(c));
    OneLawful(Tip(Head(c)), commit);
    NonEmptySplit(Tip(c.fork), c.own, [commit]);
    TipExtends(c.fork, c.own);
    OneNonEmpty(Tip(Head(c)), commit);
    OpsConcat(Head(c), [commit]);
    OpsConcat(c.own, [commit]);
    OpsCons(commit, []);
    NoOps();
    assert [commit] + [] == [commit];
    hide Ops, Fresh;
    OneMoreOp(w.remote, c.fork, c.own, commit);
    FreshOp(w, commit.op);
  }

  lemma FreshOp(w: World, op: nat)
    requires Fresh(w, op)
    ensures op !in Ops(w.remote)
  {
  }

  lemma OneLawful(base: Tree, c: Commit)
    requires Respects(c.kind, base, c.tree)
    ensures LawfulFrom(base, [c])
  {
    hide Respects;
    assert [c][1..] == [];
  }

  lemma OneNonEmpty(base: Tree, c: Commit)
    requires c.tree != base
    ensures NonEmptyFrom(base, [c])
  {
    assert [c][1..] == [];
  }

  lemma OneMoreOp(remote: History, fork: History, own: History, c: Commit)
    requires DistinctOps(own) && OnlyUnheard(remote, fork, own)
    ensures c.op !in Ops(own) ==> DistinctOps(own + [c])
    ensures c.op !in Ops(remote) ==> OnlyUnheard(remote, fork, own + [c])
  {
    var g := own + [c];
    assert forall j | 0 <= j < |own| :: g[j] == own[j] && g[..j + 1] == own[..j + 1] && own[j].op in Ops(own);
  }

  lemma PushKeepsInv(git: Git, remote: History, c: Clone)
    requires CloneInv(git, remote, c) && remote <= Head(c)
    ensures CloneInv(git, Head(c), c.(fork := Head(c), own := [], upstream := Head(c)))
    ensures CloneInv(git, Head(c), c)
  {
    hide Lawful, Excused, Ops, NonEmptyFrom, DistinctOps, OnlyUnheard;
    var pushed := c.(fork := Head(c), own := [], upstream := Head(c));
    assert Head(pushed) == Head(c);
    OpsConcat(c.fork, c.own);
    OpsPrefix(c.fork, remote);
    NoOps();
    AllUnheard(c);
    forall d | d in c.dropped ensures Excused(git, Head(c), d) {
      ExcusedGrows(git, remote, Head(c), d);
    }
    NothingOwn(Head(c));
  }

  lemma AllUnheard(c: Clone)
    ensures OnlyUnheard(Head(c), c.fork, c.own)
  {
    hide Ops;
    forall j | 0 <= j < |c.own| && c.own[j].op in Ops(Head(c)) ensures c.fork + c.own[..j + 1] <= Head(c) {
    }
  }

  lemma NothingOwn(fork: History)
    ensures forall remote: History :: OnlyUnheard(remote, fork, [])
    ensures DistinctOps([]) && NonEmptyFrom(Tip(fork), [])
  {
  }

  lemma DiscardKeepsInv(git: Git, remote: History, c: Clone)
    requires Lawful(remote) && CloneInv(git, remote, c)
    ensures CloneInv(git, remote, c.(fork := c.upstream, own := [], wedged := false, discarded := c.discarded + Ops(c.own)))
  {
    hide LawfulFrom, Excused, Ops, NonEmptyFrom, DistinctOps, OnlyUnheard;
    UpstreamLawful(remote, c.upstream);
    OpsConcat(c.fork, c.own);
    OpsPrefix(c.fork, c.upstream);
    assert c.upstream + [] == c.upstream;
    NoOps();
    NothingOwn(c.upstream);
  }

  lemma JoinHasInv(git: Git, remote: History)
    requires Lawful(remote)
    ensures CloneInv(git, remote, Clone(remote, [], remote, false, {}, {}, {}))
  {
    hide Lawful, OnlyUnheard;
    assert remote + [] == remote;
    NothingOwn(remote);
  }

  lemma FetchKeepsInv(git: Git, remote: History, c: Clone)
    requires CloneInv(git, remote, c)
    ensures CloneInv(git, remote, c.(upstream := remote)) && CloneInv(git, remote, c.(wedged := false))
  {
    hide Lawful, Excused, Ops, NonEmptyFrom, DistinctOps, OnlyUnheard;
  }

  lemma UpdateKeepsInv(git: Git, w: World, c: Clone, a: Action)
    requires Lawful(w.remote) && CloneInv(git, w.remote, c)
    requires a.Make? && CanMake(w, c, a.commit) ==> a.commit.op !in c.made
    ensures var remote := if (a == Push || a == PushUnheard) && CanPush(w, c) then Head(c) else w.remote;
      Lawful(remote) && CloneInv(git, remote, Updated(git, w, c, a))
  {
    if (a == Push || a == PushUnheard) && CanPush(w, c) {
      PushKeepsInv(git, w.remote, c);
    } else if a.Make? && CanMake(w, c, a.commit) {
      MakeKeepsInv(git, w, c, a.commit);
    } else if a == Rebase && Tracks(c) {
      RebaseKeepsInv(git, w.remote, c);
    } else if a == Discard && Tracks(c) {
      DiscardKeepsInv(git, w.remote, c);
    } else {
      FetchKeepsInv(git, w.remote, c);
    }
    hide Lawful, Excused, Ops, Rebased, OpsInv, CanMake;
  }

  /** Only the acting clone's operations can be new on the remote, and only a commit adds to `made`. */
  lemma UpdateIsLocal(git: Git, w: World, c: Clone, a: Action)
    requires w.remote <= Head(c) ==> c.fork <= w.remote && Ops(c.own) <= c.made
    ensures var remote := if (a == Push || a == PushUnheard) && CanPush(w, c) then Head(c) else w.remote;
      Ops(remote) <= Ops(w.remote) + c.made
    ensures Updated(git, w, c, a).made <= c.made + if a.Make? && CanMake(w, c, a.commit) then {a.commit.op} else {}
  {
    hide Ops, CanMake, Rebased;
    if CanPush(w, c) {
      OpsConcat(c.fork, c.own);
      OpsPrefix(c.fork, w.remote);
    }
    RebaseLeavesMade(git, c);
  }

  lemma RebaseLeavesMade(git: Git, c: Clone)
    ensures Rebased(git, c).made == c.made
  {
    hide RebaseOf;
  }

  lemma NextKeepsInv(git: Git, w: World, s: Step)
    requires Inv(git, w)
    ensures Inv(git, Next(git, w, s))
  {
    hide Lawful, CloneInv, Updated, Ops, CanMake;
    var v := Next(git, w, s);
    if s.who !in w.clones {
      JoinHasInv(git, w.remote);
    } else {
      var c := w.clones[s.who];
      CloneFacts(git, w.remote, c);
      if s.action.Make? && CanMake(w, c, s.action.commit) {
        MakeIsFresh(w, s);
      }
      UpdateKeepsInv(git, w, c, s.action);
      UpdateIsLocal(git, w, c, s.action);
      forall i | i in w.clones && i != s.who ensures CloneInv(git, v.remote, w.clones[i]) {
        assert w.remote <= v.remote;
        CloneInvGrows(git, w.remote, v.remote, w.clones[i]);
      }
    }
  }

  lemma CloneFacts(git: Git, remote: History, c: Clone)
    requires CloneInv(git, remote, c)
    ensures c.fork <= remote && Ops(c.own) <= c.made
  {
    hide Lawful, Excused, Ops;
  }

  lemma MakeIsFresh(w: World, s: Step)
    requires s.who in w.clones && s.action.Make? && CanMake(w, w.clones[s.who], s.action.commit)
    ensures forall i | i in w.clones :: s.action.commit.op !in w.clones[i].made
  {
  }

  lemma {:induction false} RunKeepsInv(git: Git, w: World, run: seq<Step>)
    requires Inv(git, w)
    ensures Inv(git, Exec(git, w, run))
  {
    hide Inv, Next;
    if run != [] {
      RunKeepsInv(git, w, run[..|run| - 1]);
      NextKeepsInv(git, Exec(git, w, run[..|run| - 1]), run[|run| - 1]);
    }
  }

  // ----- main results

  /** Whatever the clones do, the remote's history only ever grows by a suffix. */
  lemma {:induction false} RemoteOnlyGrows(git: Git, w: World, run: seq<Step>)
    ensures w.remote <= Exec(git, w, run).remote
  {
    if run != [] {
      RemoteOnlyGrows(git, w, run[..|run| - 1]);
    }
  }

  /** Every landed registration put one new file at a path that was free, and changed nothing else; a
      landed init changed no existing file but `.gitignore`. Starts from any remote, no clones. */
  lemma LandedNeverOverwrites(git: Git, h: History, run: seq<Step>, k: nat)
    requires Lawful(h)
    requires k < |Exec(git, World(h, map[]), run).remote|
    ensures var r := Exec(git, World(h, map[]), run).remote;
      Respects(r[k].kind, TreeAt(r, k), r[k].tree)
  {
    hide Respects, Next;
    RunKeepsInv(git, World(h, map[]), run);
    var r := Exec(git, World(h, map[]), run).remote;
    LawfulAt(map[], r, k);
  }

  /** What became of an operation: on the remote, thrown away with its clone's unpushed commits, or
      dropped by a rebase that found everything it changed already there. */
  ghost predicate Accounted(git: Git, w: World, c: Clone, op: nat) {
    || op in Ops(w.remote)
    || op in c.discarded
    || exists d | d in c.dropped :: d.commit.op == op && Excused(git, w.remote, d)
  }

  /** A push that succeeds accounts for every operation ever committed in that clone, of any kind. */
  lemma PushedMeansLanded(git: Git, w: World, i: nat, op: nat)
    requires Inv(git, w) && i in w.clones && CanPush(w, w.clones[i]) && op in w.clones[i].made
    ensures var v := Next(git, w, Step(i, Push));
      v.remote == Head(v.clones[i]) && v.clones[i].own == [] && Accounted(git, v, v.clones[i], op)
  {
    hide Lawful, Ops, Excused, OpsInv;
    NextKeepsInv(git, w, Step(i, Push));
    assert Head(w.clones[i]) + [] == Head(w.clones[i]);
    var v := Next(git, w, Step(i, Push));
    assert CloneInv(git, v.remote, v.clones[i]);
  }

  /** A content merge that returns ours only when theirs brings nothing new. */
  ghost predicate AddsWhatIsNew(git: Git) {
    forall base, theirs, ours | theirs != base && theirs != ours && ours != base :: git.text(base, theirs, ours) != Some(ours)
  }

  /** A commit left out, of any kind, is on the remote as the same patch, or, with such a merge, found its own
      value at every path it changed. */
  lemma DroppedHadItsValues(git: Git, remote: History, d: Drop)
    requires AddsWhatIsNew(git) && Excused(git, remote, d)
    ensures PatchOn(git, remote, d) || forall p | Changed(d, p) :: At(d.onto, p) == At(d.commit.tree, p)
  {
    hide WasOn, PatchOn, Respects;
    if !d.applied {
      forall p | Changed(d, p) ensures At(d.onto, p) == At(d.commit.tree, p) {
        assert Held(git, d, p);
      }
    }
  }

  lemma LandsFrom(git: Git, w: World, i: nat, op: nat)
    requires Inv(git, w) && i in w.clones && CanPush(w, w.clones[i])
    requires op in w.clones[i].made && op !in w.clones[i].discarded
    ensures var v := Next(git, w, Step(i, Push));
      op in Ops(v.remote) <==> !DroppedOp(v.clones[i], op)
  {
    hide Lawful, Ops, Excused;
    NextKeepsInv(git, w, Step(i, Push));
    assert Head(w.clones[i]) + [] == Head(w.clones[i]);
    var v := Next(git, w, Step(i, Push));
    assert CloneInv(git, v.remote, v.clones[i]);
  }

  // ----- exactly when a commit is left out

  function BaseAt(base: Tree, own: History, k: nat): Tree
    requires k <= |own|
  {
    if k == 0 then base else own[k - 1].tree
  }

  /** The history the k-th commit of a rebase comes onto. */
  function UpAt(git: Git, news: seq<Patch>, up: History, base: Tree, own: History, tangled: set<string>, k: nat): History
    requires k < |own|
    decreases |own|
  {
    if k == 0 then up
    else
      match TurnOf(git, news, up, base, own[0], tangled)
      case None => up
      case Some(t) => UpAt(git, news, t.up, own[0].tree, own[1..], t.tangled, k - 1)
  }

  /** The k-th commit of a rebase is left out: the upstream has the same patch among its new commits, or
      every path the commit changed is held by the tip it comes onto. */
  ghost predicate LeftOut(git: Git, news: seq<Patch>, up: History, base: Tree, own: History, tangled: set<string>, k: nat)
    requires k < |own|
  {
    || Applied(git, news, BaseAt(base, own, k), own[k].tree)
    || (var d := Drop(own[k], BaseAt(base, own, k), Tip(UpAt(git, news, up, base, own, tangled, k)), {}, false);
        forall p | Changed(d, p) :: Held(git, d, p))
  }

  lemma TurnLeaves(git: Git, news: seq<Patch>, up: History, base: Tree, c: Commit, tangled: set<string>)
    requires TurnOf(git, news, up, base, c, tangled).Some?
    ensures var t := TurnOf(git, news, up, base, c, tangled).value;
      var d := Drop(c, base, Tip(up), {}, false);
      t.left != [] <==> Applied(git, news, base, c.tree) || forall p | Changed(d, p) :: Held(git, d, p)
  {
    hide Merge, Applied, ContentMerged, ChangedPaths, Changed, Held;
    MergeIsOurs(git, c, base, Tip(up), {}, false);
  }

  lemma LeftOutLater(git: Git, news: seq<Patch>, up: History, base: Tree, own: History, tangled: set<string>, k: nat)
    requires 0 < k < |own| && TurnOf(git, news, up, base, own[0], tangled).Some?
    ensures var t := TurnOf(git, news, up, base, own[0], tangled).value;
      LeftOut(git, news, up, base, own, tangled, k) <==> LeftOut(git, news, t.up, own[0].tree, own[1..], t.tangled, k - 1)
  {
    hide TurnOf, Applied, Changed, Held;
    assert BaseAt(base, own, k) == BaseAt(own[0].tree, own[1..], k - 1);
  }

  /** In a rebase of any length, the k-th commit is left out exactly then. */
  lemma {:induction false} DroppedExactly(git: Git, news: seq<Patch>, up: History, base: Tree, own: History, tangled: set<string>, k: nat)
    requires LawfulFrom(base, own) && DistinctOps(own) && Replay(git, news, up, base, own, tangled).Some? && k < |own|
    ensures own[k].op in DropOps(Replay(git, news, up, base, own, tangled).value.dropped)
      <==> LeftOut(git, news, up, base, own, tangled, k)
    decreases |own|
  {
    hide Respects, Ops, DropOps, TurnOf, DistinctOps, Replay, Applied, Changed, Held;
    var c := own[0];
    ReplayTurns(git, news, up, base, own, tangled);
    TurnLawful(git, news, up, base, c, tangled);
    TurnLeaves(git, news, up, base, c, tangled);
    var t := TurnOf(git, news, up, base, c, tangled).value;
    assert own == [c] + own[1..];
    DistinctCons(c, own[1..]);
    ReplayLawful(git, news, t.up, c.tree, own[1..], t.tangled);
    var rest := Replay(git, news, t.up, c.tree, own[1..], t.tangled).value;
    if t.left == [] {
      assert t.left + rest.dropped == rest.dropped;
    } else {
      assert t.left == [t.left[0]];
      DropOpsCons(t.left[0], rest.dropped);
    }
    if k > 0 {
      LeftOutLater(git, news, up, base, own, tangled, k);
      DroppedExactly(git, news, t.up, c.tree, own[1..], t.tangled, k - 1);
      OpAt(own[1..], k - 1);
    }
  }

  lemma OpAt(h: History, k: nat)
    requires k < |h|
    ensures h[k].op in Ops(h)
  {
  }

  /** A rebase of clone `i` now would leave the operation out. */
  ghost predicate DropsNow(git: Git, w: World, i: nat, op: nat) {
    && i in w.clones && !w.clones[i].wedged && Tracks(w.clones[i]) && RebaseOf(git, w.clones[i]).Some?
    && var c := w.clones[i];
    exists k | 0 <= k < |Rest(c)| :: Rest(c)[k].op == op
      && LeftOut(git, News(c), c.upstream, Tip(MergeBase(c)), Rest(c), {}, k)
  }

  predicate DroppedIn(w: World, i: nat, op: nat) {
    i in w.clones && DroppedOp(w.clones[i], op)
  }

  lemma RebaseRecords(git: Git, remote: History, c: Clone, op: nat)
    requires CloneInv(git, remote, c) && RebaseOf(git, c).Some?
    ensures op in DropOps(RebaseOf(git, c).value.dropped) <==>
      exists k | 0 <= k < |Rest(c)| :: Rest(c)[k].op == op
        && LeftOut(git, News(c), c.upstream, Tip(MergeBase(c)), Rest(c), {}, k)
  {
    hide LawfulFrom, Excused, Ops, DropOps, NonEmptyFrom, DistinctOps, OnlyUnheard, LeftOut, Replay, MergeBase, News, Shared;
    RestFacts(c);
    LawfulSplit(map[], MergeBase(c), Rest(c));
    TipFromNothing(MergeBase(c));
    RestOps(c.own, Shared(c.fork, c.own, c.upstream));
    ReplayLawful(git, News(c), c.upstream, Tip(MergeBase(c)), Rest(c), {});
    if op in DropOps(RebaseOf(git, c).value.dropped) {
      var k := OpIndex(Rest(c), op);
      DroppedExactly(git, News(c), c.upstream, Tip(MergeBase(c)), Rest(c), {}, k);
    }
    if k :| 0 <= k < |Rest(c)| && Rest(c)[k].op == op
            && LeftOut(git, News(c), c.upstream, Tip(MergeBase(c)), Rest(c), {}, k) {
      DroppedExactly(git, News(c), c.upstream, Tip(MergeBase(c)), Rest(c), {}, k);
    }
  }

  ghost function OpIndex(h: History, op: nat): (k: nat)
    requires op in Ops(h)
    ensures k < |h| && h[k].op == op
  {
    var k :| 0 <= k < |h| && h[k].op == op;
    k
  }

  lemma StepRecords(git: Git, w: World, s: Step, i: nat, op: nat)
    requires Inv(git, w)
    ensures DroppedIn(Next(git, w, s), i, op)
      <==> DroppedIn(w, i, op) || (s == Step(i, Rebase) && DropsNow(git, w, i, op))
  {
    hide Lawful, CloneInv, LeftOut, RebaseOf, CanMake, CanPush, Ops;
    if s.who in w.clones {
      var c := w.clones[s.who];
      UpdateRecords(git, w, c, s.action, op);
      if s.action == Rebase && RebaseOf(git, c).Some? {
        RebaseRecords(git, w.remote, c, op);
      }
      hide Updated;
    }
  }

  /** Only a rebase that goes through adds to the record. */
  lemma UpdateRecords(git: Git, w: World, c: Clone, a: Action, op: nat)
    ensures DroppedOp(Updated(git, w, c, a), op) <==>
      || DroppedOp(c, op)
      || (a == Rebase && !c.wedged && Tracks(c) && RebaseOf(git, c).Some? && op in DropOps(RebaseOf(git, c).value.dropped))
  {
    hide RebaseOf, CanMake, CanPush, Ops;
    if a == Rebase && !c.wedged && Tracks(c) && RebaseOf(git, c).Some? {
      var ds := RebaseOf(git, c).value.dropped;
      var d := Updated(git, w, c, a);
      assert forall i | 0 <= i < |ds| :: ds[i] in d.dropped;
      if x :| x in c.dropped && x.commit.op == op {
        assert x in d.dropped;
      }
      if op in DropOps(ds) {
        var i :| 0 <= i < |ds| && ds[i].commit.op == op;
        assert ds[i] in d.dropped;
      }
      if x :| x in d.dropped && x.commit.op == op {
        if x !in c.dropped {
          var i :| 0 <= i < |ds| && ds[i] == x;
          assert ds[i].commit.op == op;
        }
      }
    }
  }

  /** A rebase of clone `i` in this run left the operation out. */
  ghost predicate LeftOutInRun(git: Git, h: History, run: seq<Step>, i: nat, op: nat) {
    exists m | 0 <= m < |run| :: run[m] == Step(i, Rebase) && DropsNow(git, Exec(git, World(h, map[]), run[..m]), i, op)
  }

  lemma {:induction false} RunRecords(git: Git, h: History, run: seq<Step>, i: nat, op: nat)
    requires Lawful(h)
    ensures DroppedIn(Exec(git, World(h, map[]), run), i, op) <==> LeftOutInRun(git, h, run, i, op)
  {
    hide DropsNow, Next, Inv, Lawful;
    if run != [] {
      var init, s := run[..|run| - 1], run[|run| - 1];
      RunRecords(git, h, init, i, op);
      var w := Exec(git, World(h, map[]), init);
      EmptyWorldInv(git, h);
      RunKeepsInv(git, World(h, map[]), init);
      StepRecords(git, w, s, i, op);
      hide Exec;
      assert forall m | 0 <= m < |init| :: init[m] == run[m] && init[..m] == run[..m];
      if LeftOutInRun(git, h, init, i, op) {
        var m :| 0 <= m < |init| && init[m] == Step(i, Rebase) && DropsNow(git, Exec(git, World(h, map[]), init[..m]), i, op);
        assert run[m] == Step(i, Rebase) && run[..m] == init[..m];
      }
      assert run[..|run| - 1] == init;
      if s == Step(i, Rebase) && DropsNow(git, w, i, op) {
        assert run[|run| - 1] == Step(i, Rebase);
      }
      if LeftOutInRun(git, h, run, i, op) {
        var m :| 0 <= m < |run| && run[m] == Step(i, Rebase) && DropsNow(git, Exec(git, World(h, map[]), run[..m]), i, op);
        if m < |init| {
          assert init[m] == Step(i, Rebase) && run[..m] == init[..m];
        }
      }
    }
  }

  lemma EmptyWorldInv(git: Git, h: History)
    requires Lawful(h)
    ensures Inv(git, World(h, map[]))
  {
  }

  /** Exactly when success means landed: in every run, from any remote, after a successful push an operation
      of this clone that was not discarded is on the remote if and only if no rebase of the run left it
      out, because the upstream had the same patch or the tip held every path it changed. */
  lemma LandsExactly(git: Git, h: History, run: seq<Step>, i: nat, op: nat)
    requires Lawful(h)
    requires var w := Exec(git, World(h, map[]), run);
      i in w.clones && CanPush(w, w.clones[i]) && op in w.clones[i].made && op !in w.clones[i].discarded
    ensures op in Ops(Next(git, Exec(git, World(h, map[]), run), Step(i, Push)).remote)
      <==> !LeftOutInRun(git, h, run, i, op)
  {
    hide Lawful, Ops, Exec, LeftOutInRun;
    EmptyWorldInv(git, h);
    RunKeepsInv(git, World(h, map[]), run);
    RunRecords(git, h, run, i, op);
    var w := Exec(git, World(h, map[]), run);
    LandsFrom(git, w, i, op);
    PushKeepsDropped(git, w, i);
  }

  lemma PushKeepsDropped(git: Git, w: World, i: nat)
    requires i in w.clones
    ensures i in Next(git, w, Step(i, Push)).clones && Next(git, w, Step(i, Push)).clones[i].dropped == w.clones[i].dropped
  {
  }

  // ----- what an operation commits

  predicate KindsOk(h: History, op: nat, kind: Kind) {
    forall k | 0 <= k < |h| && h[k].op == op :: h[k].kind == kind
  }

  predicate CloneKinds(c: Clone, op: nat, kind: Kind) {
    && KindsOk(c.fork, op, kind) && KindsOk(c.own, op, kind) && KindsOk(c.upstream, op, kind)
    && forall d | d in c.dropped && d.commit.op == op :: d.commit.kind == kind
  }

  /** Every commit of the operation, on the remote, in a clone or left out by a rebase, is of this kind. */
  predicate CommitsAs(w: World, op: nat, kind: Kind) {
    KindsOk(w.remote, op, kind) && forall i | i in w.clones :: CloneKinds(w.clones[i], op, kind)
  }

  predicate Taken(w: World, op: nat) {
    exists i | i in w.clones :: op in w.clones[i].made
  }

  lemma KindsConcat(a: History, b: History, op: nat, kind: Kind)
    ensures KindsOk(a + b, op, kind) <==> KindsOk(a, op, kind) && KindsOk(b, op, kind)
  {
    var g := a + b;
    if KindsOk(g, op, kind) {
      assert forall k | 0 <= k < |a| :: a[k] == g[k];
      assert forall k | 0 <= k < |b| :: b[k] == g[|a| + k];
    }
  }

  lemma TurnKinds(git: Git, news: seq<Patch>, up: History, base: Tree, c: Commit, tangled: set<string>, op: nat, kind: Kind)
    requires TurnOf(git, news, up, base, c, tangled).Some? && (c.op == op ==> c.kind == kind)
    ensures var t := TurnOf(git, news, up, base, c, tangled).value;
      KindsOk(t.kept, op, kind) && forall i | 0 <= i < |t.left| && t.left[i].commit.op == op :: t.left[i].commit.kind == kind
  {
    hide Merge, Applied, ContentMerged, ChangedPaths;
  }

  lemma {:induction false} ReplayKinds(git: Git, news: seq<Patch>, up: History, base: Tree, own: History, tangled: set<string>, op: nat, kind: Kind)
    requires KindsOk(own, op, kind) && Replay(git, news, up, base, own, tangled).Some?
    ensures var r := Replay(git, news, up, base, own, tangled).value;
      KindsOk(r.own, op, kind) && forall i | 0 <= i < |r.dropped| && r.dropped[i].commit.op == op :: r.dropped[i].commit.kind == kind
    decreases |own|
  {
    if own != [] {
      hide TurnOf, Replay;
      ReplayTurns(git, news, up, base, own, tangled);
      TurnKinds(git, news, up, base, own[0], tangled, op, kind);
      var t := TurnOf(git, news, up, base, own[0], tangled).value;
      assert own == [own[0]] + own[1..];
      KindsConcat([own[0]], own[1..], op, kind);
      ReplayKinds(git, news, t.up, own[0].tree, own[1..], t.tangled, op, kind);
      KindsConcat(t.kept, Replay(git, news, t.up, own[0].tree, own[1..], t.tangled).value.own, op, kind);
    }
  }

  lemma UpdateKinds(git: Git, w: World, c: Clone, a: Action, op: nat, kind: Kind)
    requires CloneKinds(c, op, kind) && KindsOk(w.remote, op, kind)
    requires a.Make? && CanMake(w, c, a.commit) ==> a.commit.op != op
    ensures CloneKinds(Updated(git, w, c, a), op, kind) && KindsOk(Head(c), op, kind)
  {
    hide Replay, CanMake, KindsOk, News, MergeBase, Shared;
    KindsConcat(c.fork, c.own, op, kind);
    NoKinds(op, kind);
    match a {
      case Make(commit) =>
        OneKind(commit, op, kind);
        KindsConcat(c.own, [commit], op, kind);
      case Rebase =>
        var k := Shared(c.fork, c.own, c.upstream);
        assert c.own == c.own[..k] + c.own[k..];
        KindsConcat(c.own[..k], c.own[k..], op, kind);
        if RebaseOf(git, c).Some? {
          ReplayKinds(git, News(c), c.upstream, Tip(MergeBase(c)), Rest(c), {}, op, kind);
        }
      case _ =>
    }
  }

  lemma NoKinds(op: nat, kind: Kind)
    ensures KindsOk([], op, kind)
  {
  }

  lemma OneKind(c: Commit, op: nat, kind: Kind)
    ensures KindsOk([c], op, kind) <==> (c.op == op ==> c.kind == kind)
  {
    assert [c][0] == c;
  }

  lemma NextKeepsKinds(git: Git, w: World, s: Step, op: nat, kind: Kind)
    requires CommitsAs(w, op, kind) && Taken(w, op)
    ensures CommitsAs(Next(git, w, s), op, kind) && Taken(Next(git, w, s), op)
  {
    hide KindsOk, Updated, CanPush, CanMake;
    NoKinds(op, kind);
    var i :| i in w.clones && op in w.clones[i].made;
    var v := Next(git, w, s);
    if s.who in w.clones {
      if s.action.Make? {
        TakenIsNotFresh(w, w.clones[s.who], s.action.commit, op);
      }
      UpdateKinds(git, w, w.clones[s.who], s.action, op, kind);
      UpdateKeepsMade(git, w, w.clones[s.who], s.action);
    }
    assert i in v.clones && op in v.clones[i].made;
  }

  lemma TakenIsNotFresh(w: World, c: Clone, commit: Commit, op: nat)
    requires Taken(w, op)
    ensures CanMake(w, c, commit) ==> commit.op != op
  {
  }

  lemma UpdateKeepsMade(git: Git, w: World, c: Clone, a: Action)
    ensures c.made <= Updated(git, w, c, a).made
  {
  }

  lemma {:induction false} RunKeepsKinds(git: Git, w: World, run: seq<Step>, op: nat, kind: Kind)
    requires CommitsAs(w, op, kind) && Taken(w, op)
    ensures CommitsAs(Exec(git, w, run), op, kind) && Taken(Exec(git, w, run), op)
  {
    hide CommitsAs, Taken, Next;
    if run != [] {
      RunKeepsKinds(git, w, run[..|run| - 1], op, kind);
      NextKeepsKinds(git, Exec(git, w, run[..|run| - 1]), run[|run| - 1], op, kind);
    }
  }

  /** The first commit of an operation settles its kind. */
  lemma MakeCommitsAs(git: Git, w: World, i: nat, c: Commit)
    requires Inv(git, w) && i in w.clones && CanMake(w, w.clones[i], c)
    ensures var v := Next(git, w, Step(i, Make(c))); CommitsAs(v, c.op, c.kind) && Taken(v, c.op)
  {
    hide Lawful, Excused, NonEmptyFrom, DistinctOps, OnlyUnheard;
    var v := Next(git, w, Step(i, Make(c)));
    assert c.op !in Ops(w.remote) by {
      assert Fresh(w, c.op);
    }
    AbsentKinds(w.remote, c.op, c.kind);
    forall j | j in w.clones ensures CloneKinds(w.clones[j], c.op, c.kind) {
      var d := w.clones[j];
      assert CloneInv(git, w.remote, d);
      OpsPrefix(d.upstream, w.remote);
      OpsPrefix(d.fork, w.remote);
      AbsentKinds(d.upstream, c.op, c.kind);
      AbsentKinds(d.fork, c.op, c.kind);
      AbsentKinds(d.own, c.op, c.kind);
    }
    hide Ops, KindsOk, CloneInv, CanMake;
    OneKind(c, c.op, c.kind);
    KindsConcat(w.clones[i].own, [c], c.op, c.kind);
    assert i in v.clones && c.op in v.clones[i].made;
  }

  lemma AbsentKinds(h: History, op: nat, kind: Kind)
    requires op !in Ops(h)
    ensures KindsOk(h, op, kind)
  {
    assert forall k | 0 <= k < |h| :: h[k].op in Ops(h);
  }

  /** Where an operation has landed, the remote's next tree is what the operation's kind makes of the one
      before. */
  lemma LandedRespects(git: Git, w: World, op: nat, kind: Kind, k: nat)
    requires Inv(git, w) && CommitsAs(w, op, kind) && k < |w.remote| && w.remote[k].op == op
    ensures Respects(kind, TreeAt(w.remote, k), TreeAt(w.remote, k + 1))
  {
    hide Respects, CloneInv;
    LawfulAt(map[], w.remote, k);
  }
}
