/** Onboarding as a client of the push protocol: initialising the repository and registering a user. */
module Onboard {
  import opened Results
  import opened PushProtocol
  import opened PushRetry

  // ----- registering a user

  datatype RegisterResult = Registered | AlreadyThere | Reserved | CommitFailed | NotPushed

  function UserFile(handler: string): string {
    "users/" + handler + ".meta.yaml"
  }

  function DepartedFile(handler: string): string {
    "archive/users/" + handler + ".meta.yaml"
  }

  /** The commit a registration makes on a given tree. */
  function Registration(op: nat, handler: string, content: string, tree: Tree): Commit {
    Commit(op, Register(UserFile(handler), content), tree[UserFile(handler) := content])
  }

  lemma MadeByMake(git: Git, w: World, i: nat, c: Commit)
    requires i in w.clones && CanMake(w, w.clones[i], c)
    ensures var v := Next(git, w, Step(i, Make(c)));
      && v.remote == w.remote && i in v.clones && c.op in v.clones[i].made
      && Head(v.clones[i]) == Head(w.clones[i]) + [c] && v.clones[i].upstream == w.clones[i].upstream
  {
    hide CanMake;
    var d := w.clones[i];
    assert d.fork + (d.own + [c]) == d.fork + d.own + [c];
  }

  lemma MadeTip(git: Git, w: World, i: nat, c: Commit)
    requires i in w.clones && CanMake(w, w.clones[i], c)
    ensures var v := Next(git, w, Step(i, Make(c))); i in v.clones && Tip(Head(v.clones[i])) == c.tree
  {
    MadeByMake(git, w, i, c);
    hide Next, CanMake;
  }

  /** A taken name is refused, a departed one for good. Otherwise success means that the user file, and nothing
      else, was added: to the clone's tip without a remote; and with one, every commit of the operation
      anywhere adds exactly that file with that content, wherever it has landed the remote's tree gains
      just this file, it is accounted for, and if no other handler of this clone threw it away it is on
      the remote exactly when no rebase left it out. The remote never loses or changes a commit. */
  method RegisterUser(git: Git, w0: World, i: nat, op: nat, handler: string, content: string,
                      commitOk: bool, hasRemote: bool, env: seq<Attempt>)
    returns (r: RegisterResult, w: World)
    requires Inv(git, w0) && i in w0.clones && Fresh(w0, op) && |env| >= MAX_PUSH_RETRIES
    ensures Inv(git, w) && i in w.clones && w0.remote <= w.remote
    ensures var here := Tip(Head(w0.clones[i]));
      && (r == Reserved <==> "archive/users/" + handler + ".meta.yaml" in here)
      && (r == AlreadyThere <==> "archive/users/" + handler + ".meta.yaml" !in here && "users/" + handler + ".meta.yaml" in here)
      && (r == CommitFailed <==>
            && "archive/users/" + handler + ".meta.yaml" !in here && "users/" + handler + ".meta.yaml" !in here
            && (!commitOk || w0.clones[i].wedged))
      && (r == NotPushed ==> hasRemote)
      && (r == Reserved || r == AlreadyThere || r == CommitFailed ==> w == w0)
      && (r == Registered && !hasRemote ==>
            Tip(Head(w.clones[i])) == here["users/" + handler + ".meta.yaml" := content] && w.remote == w0.remote)
    ensures r == Registered ==>
      && op in w.clones[i].made
      && CommitsAs(w, op, Register("users/" + handler + ".meta.yaml", content))
      && forall k | 0 <= k < |w.remote| && w.remote[k].op == op ::
           && "users/" + handler + ".meta.yaml" !in TreeAt(w.remote, k)
           && TreeAt(w.remote, k + 1) == TreeAt(w.remote, k)["users/" + handler + ".meta.yaml" := content]
    ensures r == Registered && hasRemote ==>
      && w.remote == Head(w.clones[i]) && Accounted(git, w, w.clones[i], op)
      && (op !in w.clones[i].discarded ==> (op in Ops(w.remote) <==> !DroppedOp(w.clones[i], op)))
  {
    hide Inv, Next, Accounted, CanPush, Retry, Ops, DroppedOp, Fresh, CommitsAs, Taken, Head;
    w := w0;
    var here := Tip(Head(w.clones[i]));
    if DepartedFile(handler) in here {
      return Reserved, w;
    }
    if UserFile(handler) in here {
      return AlreadyThere, w;
    }
    if !commitOk || w.clones[i].wedged {
      return CommitFailed, w;
    }
    var c := Registration(op, handler, content, here);
    assert UserFile(handler) in c.tree;
    var made := Next(git, w, Step(i, Make(c)));
    MadeByMake(git, w, i, c);
    MadeTip(git, w, i, c);
    NextKeepsInv(git, w, Step(i, Make(c)));
    MakeCommitsAs(git, w, i, c);
    var pushed, after, _ := PushWithRetry(git, made, i, hasRemote, env);
    RetryMeans(git, made, i, env[..MAX_PUSH_RETRIES], op);
    RetryKinds(git, made, i, env[..MAX_PUSH_RETRIES], op, c.kind);
    w := after;
    forall k | 0 <= k < |w.remote| && w.remote[k].op == op
      ensures UserFile(handler) !in TreeAt(w.remote, k)
      ensures TreeAt(w.remote, k + 1) == TreeAt(w.remote, k)[UserFile(handler) := content]
    {
      LandedRespects(git, w, op, c.kind, k);
    }
    return if pushed == Pushed then Registered else NotPushed, w;
  }

  // ----- initialising the repository

  const GENERAL_META: string := "channels/general.meta.yaml"
  const GENERAL_THREAD: string := "channels/general.thread"
  const GITIGNORE: string := ".gitignore"

  datatype InitResult = Ready | InitFailed

  /** The tree `ensure_repo` commits. The thread is only looked at when the metadata is missing. */
  function Initialised(tree: Tree, ignoring: string -> bool, ignored: string -> string, meta: string, thread: string): Tree {
    var content := if GITIGNORE in tree then tree[GITIGNORE] else "";
    var a := if ignoring(content) then tree else tree[GITIGNORE := ignored(content)];
    if GENERAL_META in a then a
    else
      var b := a[GENERAL_META := meta];
      if GENERAL_THREAD in b then b else b[GENERAL_THREAD := thread]
  }

  /** What initialising does to a tree, path by path: `.gitignore` is written exactly when it does not ignore
      yet, from what was there; the channel's metadata exactly when it is missing, and its thread exactly
      when both are; nothing else changes. */
  lemma InitialisedExactly(tree: Tree, ignoring: string -> bool, ignored: string -> string, meta: string, thread: string, p: string)
    ensures var t := Initialised(tree, ignoring, ignored, meta, thread);
      var ignore := if ".gitignore" in tree then tree[".gitignore"] else "";
      At(t, p)
      == if p == ".gitignore" then (if ignoring(ignore) then At(tree, p) else Some(ignored(ignore)))
         else if p == "channels/general.meta.yaml" then (if p in tree then At(tree, p) else Some(meta))
         else if p == "channels/general.thread" then
           (if p in tree || "channels/general.meta.yaml" in tree then At(tree, p) else Some(thread))
         else At(tree, p)
  {
  }

  /** So the channel is complete afterwards unless only its thread was missing. */
  lemma ChannelComplete(tree: Tree, ignoring: string -> bool, ignored: string -> string, meta: string, thread: string)
    ensures var t := Initialised(tree, ignoring, ignored, meta, thread);
      && "channels/general.meta.yaml" in t
      && ("channels/general.thread" in t <==> "channels/general.thread" in tree || "channels/general.meta.yaml" !in tree)
  {
    InitialisedExactly(tree, ignoring, ignored, meta, thread, "channels/general.meta.yaml");
    InitialisedExactly(tree, ignoring, ignored, meta, thread, "channels/general.thread");
    hide Initialised;
  }

  lemma InitialisedRespects(tree: Tree, ignoring: string -> bool, ignored: string -> string, meta: string, thread: string)
    ensures Respects(Init, tree, Initialised(tree, ignoring, ignored, meta, thread))
    ensures GENERAL_META in Initialised(tree, ignoring, ignored, meta, thread)
  {
  }

  /** The init commit of clone `i` with the given tree. */
  function InitStep(i: nat, op: nat, tree: Tree): Step {
    Step(i, Make(Commit(op, Init, tree)))
  }

  /** `ensure_repo` with the tree it wants: commit what is missing and push once; on a conflict someone else
      was first, and a hard reset to the remote-tracking branch as last fetched throws all unpushed
      commits away, or fails where there is no such branch. */
  function Ensure(git: Git, w: World, i: nat, op: nat, tree: Tree, commitOk: bool, hasRemote: bool, beforePush: seq<Step>, pushFails: bool): (InitResult, World)
    requires i in w.clones
  {
    if tree == Tip(Head(w.clones[i])) then (Ready, w)
    else if !commitOk || w.clones[i].wedged then (InitFailed, w)
    else
      var made := Next(git, w, InitStep(i, op, tree));
      if !hasRemote then (Ready, made)
      else
        var v := Exec(git, made, beforePush);
        if pushFails || Wedged(v, i) then (InitFailed, v)
        else if CanPush(v, v.clones[i]) then (Ready, Next(git, v, Step(i, Push)))
        else if !Tracks(v.clones[i]) then (InitFailed, v)
        else (Ready, Next(git, v, Step(i, Discard)))
  }

  /** The handler. If it ends well with a remote, nothing local is left over and the init is accounted for. */
  method EnsureRepo(git: Git, w0: World, i: nat, op: nat, ignoring: string -> bool, ignored: string -> string,
                    meta: string, thread: string, commitOk: bool, hasRemote: bool, beforePush: seq<Step>, pushFails: bool)
    returns (r: InitResult, w: World)
    requires Inv(git, w0) && i in w0.clones && Fresh(w0, op)
    ensures var tree := Initialised(Tip(Head(w0.clones[i])), ignoring, ignored, meta, thread);
      (r, w) == Ensure(git, w0, i, op, tree, commitOk, hasRemote, beforePush, pushFails)
    ensures Inv(git, w) && i in w.clones && w0.remote <= w.remote
    ensures var here := Tip(Head(w0.clones[i]));
      var tree := Initialised(here, ignoring, ignored, meta, thread);
      && (tree == here ==> r == Ready && w == w0 && GENERAL_META in here)
      && (tree != here && !hasRemote ==> (r == Ready <==> commitOk && !w0.clones[i].wedged))
      && (tree != here && !hasRemote && r == Ready ==> w.remote == w0.remote && Tip(Head(w.clones[i])) == tree)
      && (tree != here && r == Ready && hasRemote ==> w.clones[i].own == [] && Accounted(git, w, w.clones[i], op))
  {
    w := w0;
    var tree := Initialised(Tip(Head(w.clones[i])), ignoring, ignored, meta, thread);
    InitialisedRespects(Tip(Head(w.clones[i])), ignoring, ignored, meta, thread);
    hide Initialised;
    if tree == Tip(Head(w.clones[i])) {
      return Ready, w;
    }
    hide Inv, Next, Accounted, Respects, Fresh, Head, CanPush, Tracks;
    if !commitOk || w.clones[i].wedged {
      return InitFailed, w;
    }
    var c := Commit(op, Init, tree);
    w := Next(git, w, Step(i, Make(c)));
    MadeByMake(git, w0, i, c);
    MadeTip(git, w0, i, c);
    NextKeepsInv(git, w0, Step(i, Make(c)));
    if !hasRemote {
      return Ready, w;
    }
    ghost var made := w;
    w := Exec(git, w, beforePush);
    RunKeepsInv(git, made, beforePush);
    RemoteOnlyGrows(git, made, beforePush);
    ClonesStay(git, made, beforePush, i);
    if pushFails || Wedged(w, i) {
      return InitFailed, w;
    }
    ghost var before := w;
    if CanPush(w, w.clones[i]) {
      w := Next(git, w, Step(i, Push));
      PushedMeansLanded(git, before, i, op);
      NextKeepsInv(git, before, Step(i, Push));
      PushGrows(git, before, i);
    } else if !Tracks(w.clones[i]) {
      return InitFailed, w;
    } else {
      w := Next(git, w, Step(i, Discard));
      NextKeepsInv(git, before, Step(i, Discard));
      DiscardAccounts(git, before, i, op);
    }
    return Ready, w;
  }

  lemma PushGrows(git: Git, w: World, i: nat)
    requires i in w.clones
    ensures w.remote <= Next(git, w, Step(i, Push)).remote && i in Next(git, w, Step(i, Push)).clones
    ensures CanPush(w, w.clones[i]) ==> Tip(Head(Next(git, w, Step(i, Push)).clones[i])) == Tip(Head(w.clones[i]))
  {
    assert Head(w.clones[i]) + [] == Head(w.clones[i]);
  }

  lemma DiscardAccounts(git: Git, w: World, i: nat, op: nat)
    requires Inv(git, w) && i in w.clones && Tracks(w.clones[i]) && op in w.clones[i].made
    ensures var v := Next(git, w, Step(i, Discard));
      v.remote == w.remote && i in v.clones && v.clones[i].own == [] && Accounted(git, v, v.clones[i], op)
  {
    hide Lawful, Excused, Ops, OpsInv;
    var c := w.clones[i];
    assert CloneInv(git, w.remote, c);
    OpsConcat(c.fork, c.own);
    OpsPrefix(c.fork, w.remote);
  }

  lemma DiscardResets(git: Git, w: World, i: nat)
    requires i in w.clones && Tracks(w.clones[i])
    ensures var v := Next(git, w, Step(i, Discard)); i in v.clones && Tip(Head(v.clones[i])) == Tip(w.clones[i].upstream)
  {
    assert w.clones[i].upstream + [] == w.clones[i].upstream;
  }

  predicate StepsOfOthers(run: seq<Step>, i: nat) {
    forall k | 0 <= k < |run| :: run[k].who != i
  }

  lemma {:induction false} OthersLeaveMe(git: Git, w: World, run: seq<Step>, i: nat)
    requires i in w.clones && StepsOfOthers(run, i)
    ensures i in Exec(git, w, run).clones && Exec(git, w, run).clones[i] == w.clones[i]
  {
    if run != [] {
      OthersLeaveMe(git, w, run[..|run| - 1], i);
      hide Updated;
    }
  }

  /** If only other clones act meanwhile and no other step fails, the result is a success without the
      general channel exactly when the push conflicts and the clone has a remote-tracking branch that, as
      last fetched, lacks it: the source resets to it without fetching. */
  lemma ChannelMissingExactly(git: Git, w0: World, i: nat, op: nat, tree: Tree, beforePush: seq<Step>)
    requires i in w0.clones && CanMake(w0, w0.clones[i], Commit(op, Init, tree)) && GENERAL_META in tree
    requires StepsOfOthers(beforePush, i)
    ensures var r := Ensure(git, w0, i, op, tree, true, true, beforePush, false);
      var v := Exec(git, Next(git, w0, InitStep(i, op, tree)), beforePush);
      && i in r.1.clones
      && (r.0 == Ready && GENERAL_META !in Tip(Head(r.1.clones[i])) <==>
           && !(v.remote <= Head(w0.clones[i]) + [Commit(op, Init, tree)])
           && w0.clones[i].upstream != [] && GENERAL_META !in Tip(w0.clones[i].upstream))
  {
    var c := Commit(op, Init, tree);
    var made := Next(git, w0, InitStep(i, op, tree));
    MadeByMake(git, w0, i, c);
    MadeAwake(git, w0, i, c);
    OthersLeaveMe(git, made, beforePush, i);
    assert Tip(Head(w0.clones[i]) + [c]) == tree;
    var v := Exec(git, made, beforePush);
    PushGrows(git, v, i);
    if Tracks(v.clones[i]) {
      DiscardResets(git, v, i);
    }
    hide Next, Exec;
  }

  lemma MadeAwake(git: Git, w: World, i: nat, c: Commit)
    requires i in w.clones && CanMake(w, w.clones[i], c)
    ensures !Next(git, w, Step(i, Make(c))).clones[i].wedged
  {
  }

  // ----- a success without the channel

  const FIRST: Commit := Commit(0, Other, map["README.md" := "hello"])

  /** A repository that was never initialised is cloned twice; clone 1 initialises it. */
  function OtherInitialises(tree: Tree): seq<Step> {
    [Step(0, Join), Step(1, Join)] + [InitStep(1, 1, tree)] + [Step(1, Push)]
  }

  const JOINED: Clone := Clone([FIRST], [], [FIRST], false, {}, {}, {})

  lemma BothCloned(git: Git)
    ensures Exec(git, World([FIRST], map[]), [Step(0, Join), Step(1, Join)]) == World([FIRST], map[0 := JOINED, 1 := JOINED])
  {
    var w0, w1 := World([FIRST], map[]), World([FIRST], map[0 := JOINED]);
    OneStep(git, w0, Step(0, Join));
    assert Next(git, w0, Step(0, Join)) == w1;
    assert Next(git, w1, Step(1, Join)) == World([FIRST], map[0 := JOINED, 1 := JOINED]);
    hide Next, Exec;
    ExecSnoc(git, w0, [Step(0, Join)], Step(1, Join));
    assert [Step(0, Join)] + [Step(1, Join)] == [Step(0, Join), Step(1, Join)];
  }

  lemma CanInitialise(w: World, i: nat, op: nat, tree: Tree)
    requires w.remote == [FIRST] || (|w.remote| == 2 && w.remote[0] == FIRST && w.remote[1].op == 1)
    requires i in w.clones && w.clones[i] == JOINED && op > (if w.remote == [FIRST] then 0 else 1)
    requires forall j | j in w.clones :: op !in w.clones[j].made
    requires GENERAL_META in tree && Respects(Init, FIRST.tree, tree)
    ensures CanMake(w, JOINED, Commit(op, Init, tree))
  {
    assert Head(JOINED) == [FIRST] && Tip([FIRST]) == FIRST.tree && GENERAL_META !in FIRST.tree by {
      assert GENERAL_META[0] != "README.md"[0];
    }
    assert forall k | 0 <= k < |w.remote| :: w.remote[k].op != op;
  }

  lemma OtherInitialised(git: Git, tree: Tree)
    requires GENERAL_META in tree && Respects(Init, FIRST.tree, tree)
    ensures var w := Exec(git, World([FIRST], map[]), OtherInitialises(tree));
      && w.remote == [FIRST, Commit(1, Init, tree)] && w.clones.Keys == {0, 1}
      && w.clones[0] == JOINED && w.clones[1].made == {1}
  {
    var c := Commit(1, Init, tree);
    var w2 := World([FIRST], map[0 := JOINED, 1 := JOINED]);
    var mine := JOINED.(own := [c], made := {1});
    var w3 := World([FIRST], w2.clones[1 := mine]);
    BothCloned(git);
    CanInitialise(w2, 1, 1, tree);
    assert [] + [c] == [c] && {} + {1} == {1};
    assert Next(git, w2, InitStep(1, 1, tree)) == w3;
    assert Head(mine) == [FIRST, c] && CanPush(w3, mine);
    var w4 := Next(git, w3, Step(1, Push));
    assert w4.remote == [FIRST, c] && w4.clones.Keys == {0, 1} && w4.clones[0] == JOINED && w4.clones[1].made == {1};
    hide Next, Exec, CanMake;
    var w0, r2 := World([FIRST], map[]), [Step(0, Join), Step(1, Join)];
    ExecSnoc(git, w0, r2, InitStep(1, 1, tree));
    ExecSnoc(git, w0, r2 + [InitStep(1, 1, tree)], Step(1, Push));
  }

  /** Clone 0, which has fetched only the uninitialised repository, then gets a success and no channel. */
  lemma ReadyWithoutChannel(git: Git, theirs: Tree, tree: Tree)
    requires GENERAL_META in theirs && Respects(Init, FIRST.tree, theirs)
    requires GENERAL_META in tree && Respects(Init, FIRST.tree, tree)
    ensures var w := Exec(git, World([FIRST], map[]), OtherInitialises(theirs));
      && 0 in w.clones
      && var r := Ensure(git, w, 0, 2, tree, true, true, [], false);
      r.0 == Ready && 0 in r.1.clones && GENERAL_META !in Tip(Head(r.1.clones[0]))
  {
    OtherInitialised(git, theirs);
    var w := Exec(git, World([FIRST], map[]), OtherInitialises(theirs));
    hide Exec;
    CanInitialise(w, 0, 2, tree);
    ChannelMissingExactly(git, w, 0, 2, tree, []);
    MadeByMake(git, w, 0, Commit(2, Init, tree));
    QuietThen(git, Next(git, w, InitStep(0, 2, tree)), 0, Push);
    hide Next, CanMake, Ensure;
    var head := Head(JOINED) + [Commit(2, Init, tree)];
    assert head[1].op == 2 && w.remote[1].op == 1;
    assert GENERAL_META !in Tip([FIRST]) by {
      assert GENERAL_META[0] != "README.md"[0];
    }
  }
}
