/** Flow runs: a run's nodes move forward one status at a time, the run closes itself when the last
    node finishes, and it can be cancelled before that. The run file is rewritten on every change and
    is not rolled back when the commit fails. */
module FlowRun {
  import opened Results
  import opened Text

  datatype NodeStatus = Pending | InProgress | Done | Failed | Skipped {
    predicate Terminal() {
      Done? || Failed? || Skipped?
    }

    /** How far along the node is. */
    function Rank(): nat {
      if Pending? then 0 else if InProgress? then 1 else 2
    }
  }

  /** The source's `InProgress`, `Done`, `Failed` and `Cancelled`, named apart from the node statuses. */
  datatype RunStatus = Running | Completed | Broken | Cancelled {
    predicate Terminal() {
      !Running?
    }
  }

  datatype Node = Node(
    id: string, status: NodeStatus, actor: Option<string>,
    startedAt: Option<string>, completedAt: Option<string>, resultRef: Option<string>)

  datatype Run = Run(status: RunStatus, nodes: seq<Node>, updatedAt: string)

  datatype Event = Started | NodeUpdated(node: string, status: NodeStatus) | Finished(outcome: RunStatus)

  /** `validate_node_transition`. */
  predicate Allowed(from: NodeStatus, to: NodeStatus) {
    from == to || (match from
                   case Pending => !to.Pending?
                   case InProgress => to.Terminal()
                   case _ => false)
  }

  /** Allowed changes only move forward, and stop at a terminal status. */
  lemma AllowedIsForward(from: NodeStatus, to: NodeStatus)
    ensures Allowed(from, to) <==> from == to || from.Rank() < to.Rank()
  {
  }

  // ----- one request

  datatype Io = Io(writeOk: bool, commitOk: bool)

  datatype Request =
    | NodeSet(node: string, status: NodeStatus, actor: Option<string>, resultRef: Option<string>, now: string, io: Io)
    | Cancel(now: string, io: Io)

  function Position(nodes: seq<Node>, id: string): Option<nat> {
    if nodes == [] then None
    else if nodes[0].id == id then Some(0)
    else
      var i :- Position(nodes[1..], id);
      Some(i + 1)
  }

  lemma {:induction false} PositionFound(nodes: seq<Node>, id: string)
    ensures match Position(nodes, id)
      case Some(i) => i < |nodes| && nodes[i].id == id && forall j | 0 <= j < i :: nodes[j].id != id
      case None => forall j | 0 <= j < |nodes| :: nodes[j].id != id
  {
    if nodes != [] && nodes[0].id != id {
      PositionFound(nodes[1..], id);
      assert forall j | 1 <= j < |nodes| :: nodes[j] == nodes[1..][j - 1];
    }
  }

  predicate AllTerminal(nodes: seq<Node>) {
    forall i | 0 <= i < |nodes| :: nodes[i].status.Terminal()
  }

  predicate AnyFailed(nodes: seq<Node>) {
    exists i | 0 <= i < |nodes| :: nodes[i].status == Failed
  }

  function UpdatedNode(n: Node, to: NodeStatus, actor: Option<string>, resultRef: Option<string>, now: string): Node {
    Node(n.id, to, if actor.Some? then actor else n.actor,
         if (n.status.Pending? && to.InProgress?) || (to.Terminal() && n.completedAt.None? && n.startedAt.None?)
         then Some(now) else n.startedAt,
         if to.Terminal() && n.completedAt.None? then Some(now) else n.completedAt,
         if resultRef.Some? then resultRef else n.resultRef)
  }

  /** The run a request would write, or none if it is refused. */
  function Apply(run: Run, r: Request): Option<Run> {
    if run.status.Terminal() then None
    else
      match r
      case Cancel(now, _) => Some(run.(status := Cancelled, updatedAt := now))
      case NodeSet(id, to, actor, resultRef, now, _) =>
        var i :- Position(run.nodes, id);
        PositionFound(run.nodes, id);
        if !Allowed(run.nodes[i].status, to) then None
        else
          var nodes := run.nodes[i := UpdatedNode(run.nodes[i], to, actor, resultRef, now)];
          Some(Run(if !AllTerminal(nodes) then run.status else if AnyFailed(nodes) then Broken else Completed, nodes, now))
  }

  function EventsOf(run: Run, r: Request): seq<Event> {
    (if r.NodeSet? then [NodeUpdated(r.node, r.status)] else [])
    + if run.status.Terminal() then [Finished(run.status)] else []
  }

  datatype State = State(disk: Run, events: seq<Event>)

  /** The disk keeps the write even when the commit fails; events are sent only after the commit. */
  function Next(s: State, r: Request): State {
    match Apply(s.disk, r)
    case None => s
    case Some(run) =>
      if !r.io.writeOk then s
      else State(run, if r.io.commitOk then s.events + EventsOf(run, r) else s.events)
  }

  method EditNode(n: Node, to: NodeStatus, actor: Option<string>, resultRef: Option<string>, now: string) returns (node: Node)
    ensures node == UpdatedNode(n, to, actor, resultRef, now)
  {
    node := n;
    if node.status.Pending? && to.InProgress? {
      node := node.(startedAt := Some(now));
    }
    if to.Terminal() && node.completedAt.None? {
      if node.startedAt.None? {
        node := node.(startedAt := Some(now));
      }
      node := node.(completedAt := Some(now));
    }
    node := node.(status := to);
    if actor.Some? {
      node := node.(actor := actor);
    }
    if resultRef.Some? {
      node := node.(resultRef := resultRef);
    }
  }

  /** The handlers, editing the loaded run field by field. */
  class Store {
    var disk: Run
    var events: seq<Event>

    constructor (s: State)
      ensures disk == s.disk && events == s.events
    {
      disk := s.disk;
      events := s.events;
    }

    method HandleNodeSet(id: string, to: NodeStatus, actor: Option<string>, resultRef: Option<string>, now: string, io: Io)
      returns (ok: bool)
      modifies this
      ensures State(disk, events) == Next(State(old(disk), old(events)), NodeSet(id, to, actor, resultRef, now, io))
      ensures ok <==> Apply(old(disk), NodeSet(id, to, actor, resultRef, now, io)).Some? && io.writeOk && io.commitOk
    {
      var run := disk;
      if run.status.Terminal() {
        return false;
      }
      var at := Position(run.nodes, id);
      if at.None? {
        return false;
      }
      PositionFound(run.nodes, id);
      if !Allowed(run.nodes[at.value].status, to) {
        return false;
      }
      var node := EditNode(run.nodes[at.value], to, actor, resultRef, now);
      hide UpdatedNode, Position, Allowed;
      run := run.(nodes := run.nodes[at.value := node]);
      if AllTerminal(run.nodes) {
        run := run.(status := if AnyFailed(run.nodes) then Broken else Completed);
      }
      run := run.(updatedAt := now);
      if !io.writeOk {
        return false;
      }
      disk := run;
      if !io.commitOk {
        return false;
      }
      events := events + [NodeUpdated(id, to)];
      if run.status.Terminal() {
        events := events + [Finished(run.status)];
      }
      return true;
    }

    method HandleCancel(now: string, io: Io) returns (ok: bool)
      modifies this
      ensures State(disk, events) == Next(State(old(disk), old(events)), Cancel(now, io))
      ensures ok <==> old(disk).status == Running && io.writeOk && io.commitOk
    {
      if disk.status.Terminal() || !io.writeOk {
        return false;
      }
      disk := disk.(status := Cancelled, updatedAt := now);
      if io.commitOk {
        events := events + [Finished(Cancelled)];
      }
      return io.commitOk;
    }
  }

  // ----- whole runs

  function FreshNode(id: string): Node {
    Node(id, Pending, None, None, None, None)
  }

  /** `handle_flow_run_start` once the file is written; a template without nodes is done at once. */
  function Begin(ids: seq<string>, now: string, commitOk: bool): State {
    var status := if ids == [] then Completed else Running;
    State(Run(status, seq(|ids|, i requires 0 <= i < |ids| => FreshNode(ids[i])), now),
          if !commitOk then [] else if ids == [] then [Started, Finished(Completed)] else [Started])
  }

  function Exec(s: State, rs: seq<Request>): State {
    if rs == [] then s else Next(Exec(s, Init(rs)), Last(rs))
  }

  /** What the status says about the nodes, and the timestamps about the statuses. */
  predicate RunInv(run: Run) {
    && (run.status != Cancelled ==>
          && (run.status == Running <==> !AllTerminal(run.nodes))
          && (run.status == Broken <==> AllTerminal(run.nodes) && AnyFailed(run.nodes)))
    && (forall i | 0 <= i < |run.nodes| :: NodeInv(run.nodes[i]))
  }

  predicate NodeInv(n: Node) {
    (n.startedAt.Some? <==> n.status != Pending) && (n.completedAt.Some? <==> n.status.Terminal())
  }

  function FinishedCount(es: seq<Event>): nat {
    if es == [] then 0 else FinishedCount(Init(es)) + if Last(es).Finished? then 1 else 0
  }

  lemma {:induction false} FinishedConcat(a: seq<Event>, b: seq<Event>)
    ensures FinishedCount(a + b) == FinishedCount(a) + FinishedCount(b)
  {
    if b == [] {
      assert a + b == a;
    } else {
      FinishedConcat(a, Init(b));
      assert Init(a + b) == a + Init(b);
    }
  }

  lemma EventsFinish(run: Run, r: Request)
    ensures FinishedCount(EventsOf(run, r)) == if run.status.Terminal() then 1 else 0
  {
    var a := if r.NodeSet? then [NodeUpdated(r.node, r.status)] else [];
    var b := if run.status.Terminal() then [Finished(run.status)] else [];
    FinishedConcat(a, b);
  }

  predicate Inv(s: State) {
    RunInv(s.disk) && FinishedCount(s.events) <= if s.disk.status.Terminal() then 1 else 0
  }

  lemma ApplyKeepsInv(run: Run, r: Request)
    requires RunInv(run) && Apply(run, r).Some?
    ensures RunInv(Apply(run, r).value)
  {
    if r.NodeSet? {
      PositionFound(run.nodes, r.node);
      var i := Position(run.nodes, r.node).value;
      assert NodeInv(run.nodes[i]);
      var next := Apply(run, r).value;
      assert forall j | 0 <= j < |run.nodes| && j != i :: next.nodes[j] == run.nodes[j];
      assert NodeInv(next.nodes[i]);
    }
  }

  lemma NextKeepsInv(s: State, r: Request)
    requires Inv(s)
    ensures Inv(Next(s, r))
  {
    hide RunInv, Apply, FinishedCount, EventsOf;
    var run := Apply(s.disk, r);
    if run.Some? {
      OnlyWhileRunning(s.disk, r);
      ApplyKeepsInv(s.disk, r);
      EventsFinish(run.value, r);
      FinishedConcat(s.events, EventsOf(run.value, r));
    }
  }

  lemma OnlyWhileRunning(run: Run, r: Request)
    ensures Apply(run, r).Some? ==> run.status == Running
  {
  }

  lemma BeginInv(ids: seq<string>, now: string, commitOk: bool)
    ensures Inv(Begin(ids, now, commitOk))
    ensures commitOk ==> FinishedCount(Begin(ids, now, commitOk).events) == if ids == [] then 1 else 0
  {
    var s := Begin(ids, now, commitOk);
    assert ids != [] ==> s.disk.nodes[0].status == Pending;
    FinishedConcat([Started], [Finished(Completed)]);
    assert [Started] + [Finished(Completed)] == [Started, Finished(Completed)];
    assert FinishedCount([Started]) == 0;
    assert FinishedCount([Finished(Completed)]) == 1;
  }

  /** In every run, whatever fails: an uncancelled run is in progress exactly while some node is not
      finished, has failed exactly if all are finished and one failed, and is otherwise done; a node has
      a start time exactly if it left pending and an end time exactly if it is finished; and the run is
      announced as completed at most once. */
  lemma {:induction false} FlowInvariant(ids: seq<string>, now: string, commitOk: bool, rs: seq<Request>)
    ensures var s := Exec(Begin(ids, now, commitOk), rs);
      RunInv(s.disk) && FinishedCount(s.events) <= 1 && |s.disk.nodes| == |ids|
    ensures Inv(Exec(Begin(ids, now, commitOk), rs))
  {
    hide RunInv, FinishedCount, EventsOf, Begin;
    BeginInv(ids, now, commitOk);
    BeginNodes(ids, now, commitOk);
    if rs != [] {
      FlowInvariant(ids, now, commitOk, Init(rs));
      var s := Exec(Begin(ids, now, commitOk), Init(rs));
      NextKeepsInv(s, Last(rs));
      NextKeepsNodes(s, Last(rs));
      hide Next;
    }
  }

  lemma BeginNodes(ids: seq<string>, now: string, commitOk: bool)
    ensures |Begin(ids, now, commitOk).disk.nodes| == |ids|
  {
  }

  lemma NextKeepsNodes(s: State, r: Request)
    ensures |Next(s, r).disk.nodes| == |s.disk.nodes|
  {
    if r.NodeSet? {
      PositionFound(s.disk.nodes, r.node);
    }
  }

  predicate NoFailure(rs: seq<Request>) {
    forall i | 0 <= i < |rs| :: rs[i].io.writeOk && rs[i].io.commitOk
  }

  /** If no write and no commit fails, the completion is announced exactly once, when the run ends. */
  lemma {:induction false} AnnouncedOnce(ids: seq<string>, now: string, rs: seq<Request>)
    requires NoFailure(rs)
    ensures var s := Exec(Begin(ids, now, true), rs);
      FinishedCount(s.events) == if s.disk.status.Terminal() then 1 else 0
  {
    if rs == [] {
      BeginInv(ids, now, true);
    } else {
      AnnouncedOnce(ids, now, Init(rs));
      hide FinishedCount, EventsOf, Begin;
      var s := Exec(Begin(ids, now, true), Init(rs));
      var run := Apply(s.disk, Last(rs));
      if run.Some? {
        EventsFinish(run.value, Last(rs));
        FinishedConcat(s.events, EventsOf(run.value, Last(rs)));
      }
    }
  }

  predicate Over(s: State) {
    s.disk.status.Terminal()
  }

  /** Request `i` is the one that ended the run. */
  predicate EndedBy(s: State, rs: seq<Request>, i: nat)
    requires i < |rs|
  {
    !Over(Exec(s, rs[..i])) && Over(Exec(s, rs[..i + 1]))
  }

  lemma EndedEarlier(s: State, rs: seq<Request>, i: nat)
    requires i < |rs| - 1
    ensures EndedBy(s, rs, i) <==> EndedBy(s, Init(rs), i)
  {
    assert rs[..i] == Init(rs)[..i] && rs[..i + 1] == Init(rs)[..i + 1];
  }

  /** The ending request's commit, or the start's for a template without nodes. */
  ghost predicate EndCommitted(ids: seq<string>, now: string, commitOk: bool, rs: seq<Request>) {
    if ids == [] then commitOk
    else exists i | 0 <= i < |rs| :: EndedBy(Begin(ids, now, commitOk), rs, i) && rs[i].io.writeOk && rs[i].io.commitOk
  }

  lemma StepAnnounces(s: State, r: Request)
    ensures var v := Next(s, r);
      FinishedCount(v.events) == FinishedCount(s.events) + if !Over(s) && Over(v) && r.io.commitOk then 1 else 0
    ensures !Over(s) && Over(Next(s, r)) ==> r.io.writeOk
    ensures Over(s) ==> Next(s, r) == s
  {
    hide FinishedCount, EventsOf, Apply;
    OnlyWhileRunning(s.disk, r);
    var run := Apply(s.disk, r);
    if run.Some? {
      EventsFinish(run.value, r);
      FinishedConcat(s.events, EventsOf(run.value, r));
    }
  }

  /** Whatever else fails, a run that has ended was announced exactly if the write and the commit of the
      request that ended it both succeeded; a run that has not ended was not announced. */
  lemma {:induction false} AnnouncedExactly(ids: seq<string>, now: string, commitOk: bool, rs: seq<Request>)
    ensures var s := Exec(Begin(ids, now, commitOk), rs);
      FinishedCount(s.events) == if Over(s) && EndCommitted(ids, now, commitOk, rs) then 1 else 0
  {
    var start := Begin(ids, now, commitOk);
    BeginStatus(ids, now, commitOk);
    hide FinishedCount, Next, Begin, Over;
    if rs != [] {
      var s, r := Exec(start, Init(rs)), Last(rs);
      AnnouncedExactly(ids, now, commitOk, Init(rs));
      StepAnnounces(s, r);
      assert rs[..|rs| - 1] == Init(rs) && rs[..|rs|] == rs;
      forall i | 0 <= i < |rs| - 1 ensures EndedBy(start, rs, i) <==> EndedBy(start, Init(rs), i) {
        EndedEarlier(start, rs, i);
      }
      if ids == [] {
        StaysOver(start, Init(rs));
      } else if Over(s) {
        assert !EndedBy(start, rs, |rs| - 1);
      } else if Over(Next(s, r)) {
        assert EndedBy(start, rs, |rs| - 1);
        forall i | 0 <= i < |rs| - 1 ensures !EndedBy(start, rs, i) {
          NotOverBefore(start, Init(rs), i + 1);
        }
      }
    }
  }

  lemma BeginStatus(ids: seq<string>, now: string, commitOk: bool)
    ensures Over(Begin(ids, now, commitOk)) <==> ids == []
    ensures FinishedCount(Begin(ids, now, commitOk).events) == if ids == [] && commitOk then 1 else 0
  {
    BeginInv(ids, now, commitOk);
  }

  lemma StaysOver(s: State, rs: seq<Request>)
    requires Over(s)
    ensures Over(Exec(s, rs))
  {
    TerminalIsFinal(s, rs);
  }

  lemma {:induction false} NotOverBefore(s: State, rs: seq<Request>, i: nat)
    requires i <= |rs| && !Over(Exec(s, rs))
    ensures !Over(Exec(s, rs[..i]))
  {
    if i == |rs| {
      assert rs[..i] == rs;
    } else {
      hide Next, Over;
      StepAnnounces(Exec(s, Init(rs)), Last(rs));
      NotOverBefore(s, Init(rs), i);
      assert Init(rs)[..i] == rs[..i];
    }
  }

  /** A terminal run never changes again, on disk or in its events. */
  lemma {:induction false} TerminalIsFinal(s: State, rs: seq<Request>)
    requires s.disk.status.Terminal()
    ensures Exec(s, rs) == s
  {
    if rs != [] {
      TerminalIsFinal(s, Init(rs));
    }
  }

  // ----- what a request stores

  /** The first node with the id. */
  predicate IsFirst(nodes: seq<Node>, id: string, i: nat) {
    i < |nodes| && nodes[i].id == id && forall j | 0 <= j < i :: nodes[j].id != id
  }

  /** A node update is accepted exactly on a running run, for an id it has, if the status stays or the node
      moves from pending, or from in progress to an end. */
  lemma NodeSetAccepted(run: Run, r: Request)
    requires r.NodeSet?
    ensures Apply(run, r).Some? <==>
      && run.status == Running
      && exists i: nat :: IsFirst(run.nodes, r.node, i)
           && (run.nodes[i].status == r.status
               || run.nodes[i].status == Pending
               || (run.nodes[i].status == InProgress && r.status in {Done, Failed, Skipped}))
  {
    PositionFound(run.nodes, r.node);
    var at := Position(run.nodes, r.node);
    if at.Some? {
      assert IsFirst(run.nodes, r.node, at.value);
      assert forall i: nat | IsFirst(run.nodes, r.node, i) :: i == at.value;
    }
    hide Position;
  }

  /** What an accepted and written update leaves on disk, in a run as the handlers keep it: the requested
      status; the given actor and result, or the old ones; a start time from the moment the node leaves
      pending and an end time from the moment it ends; every other node as it was; and the run's status
      by its nodes, so a last node that fails ends it as failed. */
  lemma NodeSetStores(s: State, r: Request, i: nat)
    requires RunInv(s.disk) && r.NodeSet? && Apply(s.disk, r).Some? && r.io.writeOk && IsFirst(s.disk.nodes, r.node, i)
    ensures var was, v := s.disk, Next(s, r).disk;
      && |v.nodes| == |was.nodes| && v.updatedAt == r.now
      && (forall j | 0 <= j < |was.nodes| && j != i :: v.nodes[j] == was.nodes[j])
      && v.nodes[i].id == r.node && v.nodes[i].status == r.status
      && v.nodes[i].actor == (if r.actor == None then was.nodes[i].actor else r.actor)
      && v.nodes[i].resultRef == (if r.resultRef == None then was.nodes[i].resultRef else r.resultRef)
      && v.nodes[i].startedAt
         == (if was.nodes[i].startedAt == None && r.status != Pending then Some(r.now) else was.nodes[i].startedAt)
      && v.nodes[i].completedAt
         == (if was.nodes[i].completedAt == None && r.status in {Done, Failed, Skipped} then Some(r.now) else was.nodes[i].completedAt)
      && v.status
         == (if exists j | 0 <= j < |v.nodes| :: v.nodes[j].status in {Pending, InProgress} then Running
             else if exists j | 0 <= j < |v.nodes| :: v.nodes[j].status == Failed then Broken
             else Completed)
  {
    PositionFound(s.disk.nodes, r.node);
    assert Position(s.disk.nodes, r.node) == Some(i);
    assert NodeInv(s.disk.nodes[i]);
    hide Position;
    var v := Next(s, r).disk;
    if AllTerminal(v.nodes) {
      assert forall j | 0 <= j < |v.nodes| :: v.nodes[j].status !in {Pending, InProgress};
    }
  }

  lemma LastFailureFails(s: State, r: Request, i: nat)
    requires RunInv(s.disk) && r.NodeSet? && Apply(s.disk, r).Some? && r.io.writeOk && IsFirst(s.disk.nodes, r.node, i)
    requires r.status == Failed && forall j | 0 <= j < |s.disk.nodes| && j != i :: s.disk.nodes[j].status in {Done, Failed, Skipped}
    ensures Next(s, r).disk.status == Broken
    ensures Next(s, r).events == if r.io.commitOk then s.events + [NodeUpdated(r.node, Failed), Finished(Broken)] else s.events
  {
    NodeSetStores(s, r, i);
    LastEvents(s, r);
    hide Next, Apply, RunInv;
    var v := Next(s, r).disk;
    assert v.nodes[i].status == Failed;
    assert forall j | 0 <= j < |v.nodes| :: v.nodes[j].status !in {Pending, InProgress};
  }

  lemma LastEvents(s: State, r: Request)
    requires r.NodeSet? && Apply(s.disk, r).Some? && r.io.writeOk
    ensures var run := Next(s, r).disk;
      Next(s, r).events == if !r.io.commitOk then s.events
                           else s.events + [NodeUpdated(r.node, r.status)] + if run.status == Running then [] else [Finished(run.status)]
  {
    hide Apply;
  }

  /** A cancel that is written changes the status and the time and nothing else; a start has the template's
      nodes, all pending. */
  lemma CancelStores(s: State, r: Request)
    requires r.Cancel? && s.disk.status == Running && r.io.writeOk
    ensures Next(s, r).disk == Run(Cancelled, s.disk.nodes, r.now)
    ensures Next(s, r).events == if r.io.commitOk then s.events + [Finished(Cancelled)] else s.events
  {
    assert [] + [Finished(Cancelled)] == [Finished(Cancelled)];
  }

  lemma BeginStores(ids: seq<string>, now: string, commitOk: bool)
    ensures var run := Begin(ids, now, commitOk).disk;
      && |run.nodes| == |ids| && (forall i | 0 <= i < |ids| :: run.nodes[i] == Node(ids[i], Pending, None, None, None, None))
      && run.status == (if ids == [] then Completed else Running) && run.updatedAt == now
  {
  }

  // ----- at most two status changes per node

  function TotalRank(nodes: seq<Node>): (n: nat)
    ensures n <= 2 * |nodes|
  {
    if nodes == [] then 0 else TotalRank(Init(nodes)) + Last(nodes).status.Rank()
  }

  lemma {:induction false} RankUpdate(nodes: seq<Node>, i: nat, n: Node)
    requires i < |nodes|
    ensures TotalRank(nodes[i := n]) == TotalRank(nodes) - nodes[i].status.Rank() + n.status.Rank()
  {
    if i == |nodes| - 1 {
      assert Init(nodes[i := n]) == Init(nodes);
    } else {
      RankUpdate(Init(nodes), i, n);
      assert Init(nodes[i := n]) == Init(nodes)[i := n];
    }
  }

  /** Requests that changed some node's status on disk. */
  function StatusChanges(s: State, rs: seq<Request>): nat {
    if rs == [] then 0
    else
      var before := Exec(s, Init(rs));
      StatusChanges(s, Init(rs)) + if Statuses(Next(before, Last(rs)).disk) != Statuses(before.disk) then 1 else 0
  }

  function Statuses(run: Run): seq<NodeStatus> {
    seq(|run.nodes|, i requires 0 <= i < |run.nodes| => run.nodes[i].status)
  }

  lemma ChangeRaisesRank(s: State, r: Request)
    ensures TotalRank(Next(s, r).disk.nodes)
         >= TotalRank(s.disk.nodes) + if Statuses(Next(s, r).disk) != Statuses(s.disk) then 1 else 0
  {
    if r.NodeSet? && Apply(s.disk, r).Some? {
      PositionFound(s.disk.nodes, r.node);
      var i := Position(s.disk.nodes, r.node).value;
      var n := UpdatedNode(s.disk.nodes[i], r.status, r.actor, r.resultRef, r.now);
      RankUpdate(s.disk.nodes, i, n);
      AllowedIsForward(s.disk.nodes[i].status, n.status);
      if s.disk.nodes[i].status == n.status {
        assert Statuses(Next(s, r).disk) == Statuses(s.disk);
      }
    }
  }

  /** Over any run, n nodes see at most 2n status-changing updates. */
  lemma {:induction false} AtMostTwicePerNode(s: State, rs: seq<Request>)
    ensures StatusChanges(s, rs) + TotalRank(s.disk.nodes) <= TotalRank(Exec(s, rs).disk.nodes)
    ensures StatusChanges(s, rs) <= 2 * |s.disk.nodes|
  {
    hide TotalRank, Statuses;
    if rs != [] {
      AtMostTwicePerNode(s, Init(rs));
      ChangeRaisesRank(Exec(s, Init(rs)), Last(rs));
    }
    NodesKept(s, rs);
    hide Next;
  }

  lemma {:induction false} NodesKept(s: State, rs: seq<Request>)
    ensures |Exec(s, rs).disk.nodes| == |s.disk.nodes|
  {
    if rs != [] {
      NodesKept(s, Init(rs));
      NextKeepsNodes(Exec(s, Init(rs)), Last(rs));
      hide Next;
    }
  }
}
