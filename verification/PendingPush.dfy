/** The pending-push ledger: messages committed locally and not yet known to be on the remote. Sends
    add to it, conflict resolution renumbers it in place, push callbacks confirm part of it. */
module PendingPush {
  import opened Text

  datatype Pending = Pending(channel: string, line: nat, commit: string)

  /** Whether the first commit is an ancestor of (or is) the second. */
  type Ancestry = (string, string) -> bool

  // ----- confirming

  predicate Included(anc: Ancestry, m: Pending, pushed: string, included: string) {
    anc(m.commit, pushed) || (included != pushed && anc(m.commit, included))
  }

  /** The confirmed messages (`want`) or the others, in ledger order. */
  function Part(anc: Ancestry, ps: seq<Pending>, pushed: string, included: string, want: bool): seq<Pending> {
    if ps == [] then []
    else
      var before := Part(anc, Init(ps), pushed, included, want);
      if Included(anc, Last(ps), pushed, included) == want then before + [Last(ps)] else before
  }

  /** Line numbers per channel, in order. */
  function ByChannel(ps: seq<Pending>): map<string, seq<nat>> {
    if ps == [] then map[]
    else
      var before := ByChannel(Init(ps));
      var m := Last(ps);
      before[m.channel := (if m.channel in before then before[m.channel] else []) + [m.line]]
  }

  function LinesIn(ps: seq<Pending>, channel: string): seq<nat> {
    if ps == [] then []
    else LinesIn(Init(ps), channel) + if Last(ps).channel == channel then [Last(ps).line] else []
  }

  /** One report per channel that has confirmed messages, listing exactly their lines. */
  lemma {:induction false} ReportsAreLines(ps: seq<Pending>, channel: string)
    ensures channel in ByChannel(ps) <==> LinesIn(ps, channel) != []
    ensures channel in ByChannel(ps) ==> ByChannel(ps)[channel] == LinesIn(ps, channel)
  {
    if ps != [] {
      ReportsAreLines(Init(ps), channel);
    }
  }

  /** One part of the ledger is exactly the messages contained, or not, at their positions and in order. */
  lemma {:induction false} PartExactly(anc: Ancestry, ps: seq<Pending>, pushed: string, included: string, want: bool) returns (at: seq<nat>)
    ensures var part := Part(anc, ps, pushed, included, want);
      && |at| == |part|
      && (forall j | 0 <= j < |at| :: at[j] < |ps| && part[j] == ps[at[j]])
      && (forall j, k | 0 <= j < k < |at| :: at[j] < at[k])
      && (forall i | 0 <= i < |ps| :: i in at <==> (anc(ps[i].commit, pushed) || anc(ps[i].commit, included)) == want)
  {
    at := [];
    if ps != [] {
      at := PartExactly(anc, Init(ps), pushed, included, want);
      if (anc(Last(ps).commit, pushed) || anc(Last(ps).commit, included)) == want {
        at := at + [|ps| - 1];
      }
    }
  }

  lemma PartMembers(anc: Ancestry, ps: seq<Pending>, pushed: string, included: string, want: bool, m: Pending)
    ensures m in Part(anc, ps, pushed, included, want) <==>
      m in ps && (anc(m.commit, pushed) || anc(m.commit, included)) == want
  {
    hide Part, Included;
    var at := PartExactly(anc, ps, pushed, included, want);
    var part := Part(anc, ps, pushed, included, want);
    if m in ps && (anc(m.commit, pushed) || anc(m.commit, included)) == want {
      var i :| 0 <= i < |ps| && ps[i] == m;
      assert i in at;
      var j :| 0 <= j < |at| && at[j] == i;
      assert part[j] == m;
    }
  }

  lemma {:induction false} LinesMembers(ps: seq<Pending>, c: string, n: nat)
    ensures n in LinesIn(ps, c) <==> exists m :: m in ps && m.channel == c && m.line == n
  {
    if ps != [] {
      LinesMembers(Init(ps), c, n);
      assert ps == Init(ps) + [Last(ps)];
      if Last(ps).channel == c && Last(ps).line == n {
        assert Last(ps) in ps;
      }
    }
  }

  predicate Reported(reports: map<string, seq<nat>>, c: string, n: nat) {
    c in reports && n in reports[c]
  }

  lemma ConfirmedExactly(anc: Ancestry, ps: seq<Pending>, pushed: string, included: string, reports: map<string, seq<nat>>)
    requires reports == ByChannel(Part(anc, ps, pushed, included, true))
    ensures forall m :: m in Part(anc, ps, pushed, included, false) <==>
      m in ps && !anc(m.commit, pushed) && !anc(m.commit, included)
    ensures forall c, n :: Reported(reports, c, n) <==>
        exists m :: m in ps && m.channel == c && m.line == n && (anc(m.commit, pushed) || anc(m.commit, included))
  {
    hide Part, Included, ByChannel, LinesIn;
    var gone, left := Part(anc, ps, pushed, included, true), Part(anc, ps, pushed, included, false);
    forall m ensures m in left <==> m in ps && !anc(m.commit, pushed) && !anc(m.commit, included) {
      PartMembers(anc, ps, pushed, included, false, m);
    }
    forall c, n ensures Reported(reports, c, n) <==>
        exists m :: m in ps && m.channel == c && m.line == n && (anc(m.commit, pushed) || anc(m.commit, included))
    {
      ReportsAreLines(gone, c);
      LinesMembers(gone, c, n);
      if c in reports && n in reports[c] {
        var m :| m in gone && m.channel == c && m.line == n;
        PartMembers(anc, ps, pushed, included, true, m);
      }
      if m :| m in ps && m.channel == c && m.line == n && (anc(m.commit, pushed) || anc(m.commit, included)) {
        PartMembers(anc, ps, pushed, included, true, m);
      }
    }
  }

  lemma PartSnoc(anc: Ancestry, ps: seq<Pending>, m: Pending, pushed: string, included: string, want: bool)
    ensures Part(anc, ps + [m], pushed, included, want)
         == Part(anc, ps, pushed, included, want) + if Included(anc, m, pushed, included) == want then [m] else []
  {
    assert Init(ps + [m]) == ps;
  }

  lemma ByChannelSnoc(ps: seq<Pending>, m: Pending)
    ensures ByChannel(ps + [m])
         == ByChannel(ps)[m.channel := (if m.channel in ByChannel(ps) then ByChannel(ps)[m.channel] else []) + [m.line]]
  {
    assert Init(ps + [m]) == ps;
  }

  // ----- renumbering

  datatype Mapping = Mapping(oldLine: nat, newLine: nat)

  function RenumberOne(m: Pending, channel: string, r: Mapping): Pending {
    if m.channel == channel && m.line == r.oldLine then m.(line := r.newLine) else m
  }

  function Renumber(ps: seq<Pending>, channel: string, r: Mapping): (q: seq<Pending>)
    ensures |q| == |ps|
  {
    seq(|ps|, i requires 0 <= i < |ps| => RenumberOne(ps[i], channel, r))
  }

  // ----- the ledger object

  class Ledger {
    var pending: seq<Pending>

    constructor ()
      ensures pending == []
    {
      pending := [];
    }

    method Push(m: Pending)
      modifies this
      ensures pending == old(pending) + [m]
      ensures forall anc: Ancestry, s: State | s.pending == old(pending) :: Next(anc, s, Sent(m)).pending == pending
    {
      pending := pending + [m];
    }

    /** The `on_renumbered` closure. */
    method OnRenumbered(channel: string, r: Mapping)
      modifies this
      ensures pending == Renumber(old(pending), channel, r)
      ensures |pending| == |old(pending)|
      ensures forall k | 0 <= k < |pending| ::
        var was := old(pending)[k];
        pending[k] == if was.channel == channel && was.line == r.oldLine then was.(line := r.newLine) else was
      ensures forall anc: Ancestry, s: State | s.pending == old(pending) :: Next(anc, s, Renumbered(channel, r)).pending == pending
    {
      for i := 0 to |pending|
        invariant |pending| == |old(pending)|
        invariant forall k | 0 <= k < |pending| ::
          pending[k] == if k < i then RenumberOne(old(pending)[k], channel, r) else old(pending)[k]
      {
        if pending[i].channel == channel && pending[i].line == r.oldLine {
          pending := pending[i := pending[i].(line := r.newLine)];
        }
      }
    }

    method ConfirmPendingPushes(anc: Ancestry, upstreamHasPushed: bool, pushed: string, included: string)
      returns (reports: map<string, seq<nat>>)
      modifies this
      ensures pending == if upstreamHasPushed then Part(anc, old(pending), pushed, included, false) else old(pending)
      ensures upstreamHasPushed ==> forall m :: m in pending <==>
        m in old(pending) && !anc(m.commit, pushed) && !anc(m.commit, included)
      ensures upstreamHasPushed ==> forall c, n :: Reported(reports, c, n) <==>
        exists m :: m in old(pending) && m.channel == c && m.line == n && (anc(m.commit, pushed) || anc(m.commit, included))
      ensures !upstreamHasPushed ==> pending == old(pending) && reports == map[]
      ensures forall s: State | s.pending == old(pending) ::
        Next(anc, s, Confirmed(upstreamHasPushed, pushed, included)).pending == pending
      ensures reports == if upstreamHasPushed then ByChannel(Part(anc, old(pending), pushed, included, true)) else map[]
    {
      hide Included;
      reports := map[];
      if !upstreamHasPushed {
        return;
      }
      var remaining: seq<Pending> := [];
      ghost var confirmed: seq<Pending> := [];
      assert pending[..0] == [];
      for i := 0 to |pending|
        invariant pending == old(pending)
        invariant remaining == Part(anc, pending[..i], pushed, included, false)
        invariant confirmed == Part(anc, pending[..i], pushed, included, true)
        invariant reports == ByChannel(confirmed)
      {
        var m := pending[i];
        assert pending[..i + 1] == pending[..i] + [m];
        PartSnoc(anc, pending[..i], m, pushed, included, false);
        PartSnoc(anc, pending[..i], m, pushed, included, true);
        ByChannelSnoc(confirmed, m);
        hide Part, ByChannel;
        if Included(anc, m, pushed, included) {
          confirmed := confirmed + [m];
          var lines := if m.channel in reports then reports[m.channel] else [];
          reports := reports[m.channel := lines + [m.line]];
        } else {
          remaining := remaining + [m];
        }
      }
      assert pending[..|pending|] == pending;
      ConfirmedExactly(anc, pending, pushed, included, reports);
      pending := remaining;
    }
  }

  // ----- whole runs

  datatype Event =
    | Sent(message: Pending)
    | Renumbered(channel: string, mapping: Mapping)
    | Confirmed(upstreamHasPushed: bool, pushed: string, included: string)

  /** The ledger, and everything ever reported as pushed. */
  datatype State = State(pending: seq<Pending>, reported: seq<Pending>)

  function Next(anc: Ancestry, s: State, e: Event): State {
    match e
    case Sent(m) => s.(pending := s.pending + [m])
    case Renumbered(channel, r) => s.(pending := Renumber(s.pending, channel, r))
    case Confirmed(upstreamHasPushed, pushed, included) =>
      if upstreamHasPushed
      then State(Part(anc, s.pending, pushed, included, false),
                 s.reported + Part(anc, s.pending, pushed, included, true))
      else s
  }

  function Run(anc: Ancestry, es: seq<Event>): State {
    if es == [] then State([], []) else Next(anc, Run(anc, Init(es)), Last(es))
  }

  /** What renumbering leaves alone. */
  datatype Key = Key(channel: string, commit: string)

  function Keys(ps: seq<Pending>): multiset<Key> {
    if ps == [] then multiset{} else Keys(Init(ps)) + multiset{Key(Last(ps).channel, Last(ps).commit)}
  }

  function SentKeys(es: seq<Event>): multiset<Key> {
    if es == [] then multiset{}
    else SentKeys(Init(es)) + SentBy(Last(es))
  }

  lemma KeysNone()
    ensures Keys([]) == multiset{}
  {
  }

  lemma {:induction false} KeysConcat(a: seq<Pending>, b: seq<Pending>)
    ensures Keys(a + b) == Keys(a) + Keys(b)
  {
    hide Keys;
    if b == [] {
      assert a + b == a;
      KeysNone();
    } else {
      var b', m := Init(b), Last(b);
      KeysConcat(a, b');
      KeysSnoc(a + b', m);
      KeysSnoc(b', m);
      assert b == b' + [m] && a + b == a + b' + [m];
    }
  }

  lemma {:induction false} PartsConserve(anc: Ancestry, ps: seq<Pending>, pushed: string, included: string)
    ensures Keys(ps) == Keys(Part(anc, ps, pushed, included, false)) + Keys(Part(anc, ps, pushed, included, true))
  {
    if ps != [] {
      PartsConserve(anc, Init(ps), pushed, included);
      KeysSnoc(Part(anc, Init(ps), pushed, included, false), Last(ps));
      KeysSnoc(Part(anc, Init(ps), pushed, included, true), Last(ps));
    }
  }

  lemma KeysSnoc(ps: seq<Pending>, m: Pending)
    ensures Keys(ps + [m]) == Keys(ps) + multiset{Key(m.channel, m.commit)}
  {
    assert Init(ps + [m]) == ps;
  }

  lemma {:induction false} RenumberKeepsKeys(ps: seq<Pending>, channel: string, r: Mapping)
    ensures Keys(Renumber(ps, channel, r)) == Keys(ps)
  {
    if ps != [] {
      RenumberKeepsKeys(Init(ps), channel, r);
      assert Init(Renumber(ps, channel, r)) == Renumber(Init(ps), channel, r);
    }
  }

  function SentBy(e: Event): multiset<Key> {
    if e.Sent? then multiset{Key(e.message.channel, e.message.commit)} else multiset{}
  }

  lemma NextConserves(anc: Ancestry, s: State, e: Event)
    ensures Keys(Next(anc, s, e).pending) + Keys(Next(anc, s, e).reported)
         == Keys(s.pending) + Keys(s.reported) + SentBy(e)
  {
    hide Keys, Part, Renumber;
    match e {
      case Sent(m) => KeysSnoc(s.pending, m);
      case Renumbered(channel, r) => RenumberKeepsKeys(s.pending, channel, r);
      case Confirmed(_, pushed, included) =>
        PartsConserve(anc, s.pending, pushed, included);
        KeysConcat(s.reported, Part(anc, s.pending, pushed, included, true));
    }
  }

  /** Over every run, each message sent is pending or reported, once. */
  lemma {:induction false} LedgerConserves(anc: Ancestry, es: seq<Event>)
    ensures Keys(Run(anc, es).pending) + Keys(Run(anc, es).reported) == SentKeys(es)
  {
    hide Next;
    if es != [] {
      LedgerConserves(anc, Init(es));
      NextConserves(anc, Run(anc, Init(es)), Last(es));
    }
  }

  lemma {:induction false} PartIncluded(anc: Ancestry, ps: seq<Pending>, pushed: string, included: string, want: bool, i: nat)
    requires i < |Part(anc, ps, pushed, included, want)|
    ensures Included(anc, Part(anc, ps, pushed, included, want)[i], pushed, included) == want
  {
    var before := Part(anc, Init(ps), pushed, included, want);
    if i < |before| {
      PartIncluded(anc, Init(ps), pushed, included, want, i);
    }
  }

  predicate ConfirmsHead(e: Event, anc: Ancestry, commit: string) {
    e.Confirmed? && e.upstreamHasPushed && (anc(commit, e.pushed) || anc(commit, e.included))
  }

  /** A message is reported only after a callback whose pushed or included head contains its commit. */
  lemma {:induction false} ReportedWasPushed(anc: Ancestry, es: seq<Event>, i: nat)
    requires i < |Run(anc, es).reported|
    ensures exists k | 0 <= k < |es| :: ConfirmsHead(es[k], anc, Run(anc, es).reported[i].commit)
  {
    if es != [] {
      var s, e := Run(anc, Init(es)), Last(es);
      if i < |s.reported| {
        ReportedWasPushed(anc, Init(es), i);
        var k :| 0 <= k < |Init(es)| && ConfirmsHead(Init(es)[k], anc, s.reported[i].commit);
        assert es[k] == Init(es)[k];
      } else {
        PartIncluded(anc, s.pending, e.pushed, e.included, true, i - |s.reported|);
        assert ConfirmsHead(es[|es| - 1], anc, Run(anc, es).reported[i].commit);
      }
    }
  }

  /** The message sent by event `k` has met no callback that contains its commit. */
  predicate StillWaiting(anc: Ancestry, es: seq<Event>, k: nat) {
    && k < |es| && es[k].Sent?
    && forall m | k < m < |es| :: !(es[m].Confirmed? && es[m].upstreamHasPushed
         && (anc(es[k].message.commit, es[m].pushed) || anc(es[k].message.commit, es[m].included)))
  }

  /** In every run the ledger holds, in sending order, exactly the messages that no later callback's head
      contained; by conservation every other one has been reported. */
  lemma {:induction false} PendingExactly(anc: Ancestry, es: seq<Event>) returns (sent: seq<nat>)
    ensures var ps := Run(anc, es).pending;
      && |sent| == |ps|
      && (forall j | 0 <= j < |sent| :: sent[j] < |es| && es[sent[j]].Sent?
            && ps[j].channel == es[sent[j]].message.channel && ps[j].commit == es[sent[j]].message.commit)
      && (forall j, k | 0 <= j < k < |sent| :: sent[j] < sent[k])
      && (forall k | 0 <= k < |es| :: k in sent <==> StillWaiting(anc, es, k))
  {
    hide Part, Included, Renumber;
    sent := [];
    if es != [] {
      var init, e := Init(es), Last(es);
      var before := PendingExactly(anc, init);
      var s := Run(anc, init);
      WaitingStep(anc, init, e);
      assert es == init + [e];
      match e {
        case Sent(m) =>
          sent := before + [|es| - 1];
        case Renumbered(channel, r) =>
          sent := before;
          RenumberKeepsEach(s.pending, channel, r);
        case Confirmed(ok, pushed, included) =>
          sent := before;
          if ok {
            var at := PartExactly(anc, s.pending, pushed, included, false);
            sent := Pick(before, at);
            Picked(before, at);
          }
      }
    }
  }

  lemma RenumberKeepsEach(ps: seq<Pending>, channel: string, r: Mapping)
    ensures forall j | 0 <= j < |ps| ::
      Renumber(ps, channel, r)[j].channel == ps[j].channel && Renumber(ps, channel, r)[j].commit == ps[j].commit
  {
  }

  function Pick(xs: seq<nat>, at: seq<nat>): (r: seq<nat>)
    requires forall j | 0 <= j < |at| :: at[j] < |xs|
    ensures |r| == |at|
  {
    seq(|at|, j requires 0 <= j < |at| => xs[at[j]])
  }

  lemma Picked(xs: seq<nat>, at: seq<nat>)
    requires forall j | 0 <= j < |at| :: at[j] < |xs|
    requires forall j, k | 0 <= j < k < |xs| :: xs[j] < xs[k]
    ensures forall x :: x in Pick(xs, at) <==> exists i | 0 <= i < |xs| :: i in at && xs[i] == x
  {
    var r := Pick(xs, at);
    forall x ensures x in r <==> exists i | 0 <= i < |xs| :: i in at && xs[i] == x {
      if x in r {
        var j :| 0 <= j < |r| && r[j] == x;
        assert at[j] in at && xs[at[j]] == x;
      }
      if i :| 0 <= i < |xs| && i in at && xs[i] == x {
        var j :| 0 <= j < |at| && at[j] == i;
        assert r[j] == x;
      }
    }
  }

  lemma WaitingStep(anc: Ancestry, init: seq<Event>, e: Event)
    ensures forall k | 0 <= k < |init| :: StillWaiting(anc, init + [e], k) <==>
      && StillWaiting(anc, init, k)
      && !(e.Confirmed? && e.upstreamHasPushed
           && (anc(init[k].message.commit, e.pushed) || anc(init[k].message.commit, e.included)))
    ensures StillWaiting(anc, init + [e], |init|) <==> e.Sent?
  {
    var es := init + [e];
    forall k | 0 <= k < |init| && StillWaiting(anc, init, k)
        && !(e.Confirmed? && e.upstreamHasPushed
             && (anc(init[k].message.commit, e.pushed) || anc(init[k].message.commit, e.included)))
      ensures StillWaiting(anc, es, k)
    {
      assert forall m | k < m < |es| :: es[m] == if m < |init| then init[m] else e;
    }
    forall k | 0 <= k < |init| && StillWaiting(anc, es, k)
      ensures StillWaiting(anc, init, k)
      ensures !(e.Confirmed? && e.upstreamHasPushed
           && (anc(init[k].message.commit, e.pushed) || anc(init[k].message.commit, e.included)))
    {
      assert es[|init|] == e && forall m | k <= m < |init| :: es[m] == init[m];
    }
  }

  // ----- a batch of renumber callbacks

  /** The callbacks of one resolved file, one after the other. */
  function InTurn(ps: seq<Pending>, channel: string, rs: seq<Mapping>): seq<Pending>
    decreases |rs|
  {
    if rs == [] then ps else InTurn(Renumber(ps, channel, rs[0]), channel, rs[1..])
  }

  function InTurnLine(x: nat, rs: seq<Mapping>): nat
    decreases |rs|
  {
    if rs == [] then x else InTurnLine(if x == rs[0].oldLine then rs[0].newLine else x, rs[1..])
  }

  /** What the batch means: every old number replaced by its new one, at once. */
  function AtOnceLine(x: nat, rs: seq<Mapping>): nat {
    if rs == [] then x else if x == rs[0].oldLine then rs[0].newLine else AtOnceLine(x, rs[1..])
  }

  /** On the ledger the callbacks act line by line and leave other channels alone. */
  lemma {:induction false} InTurnPerLine(ps: seq<Pending>, channel: string, rs: seq<Mapping>, i: nat)
    requires i < |ps|
    ensures |InTurn(ps, channel, rs)| == |ps|
    ensures InTurn(ps, channel, rs)[i]
         == if ps[i].channel == channel then ps[i].(line := InTurnLine(ps[i].line, rs)) else ps[i]
    decreases |rs|
  {
    if rs != [] {
      InTurnPerLine(Renumber(ps, channel, rs[0]), channel, rs[1..], i);
    }
  }

  predicate DistinctOld(rs: seq<Mapping>) {
    forall i, j | 0 <= i < j < |rs| :: rs[i].oldLine != rs[j].oldLine
  }

  predicate Forward(rs: seq<Mapping>) {
    forall i | 0 <= i < |rs| :: rs[i].oldLine <= rs[i].newLine
  }

  /** No callback produces a number that a later callback moves on. */
  predicate NoRecapture(rs: seq<Mapping>) {
    forall i, j | 0 <= i < j < |rs| && rs[i].newLine == rs[j].oldLine :: rs[j].newLine == rs[j].oldLine
  }

  lemma {:induction false} Untouched(x: nat, rs: seq<Mapping>)
    requires forall i | 0 <= i < |rs| && rs[i].oldLine == x :: rs[i].newLine == x
    ensures InTurnLine(x, rs) == x && AtOnceLine(x, rs) == x
  {
    if rs != [] {
      Untouched(x, rs[1..]);
    }
  }

  lemma {:induction false} OnlyForward(x: nat, rs: seq<Mapping>)
    requires Forward(rs)
    ensures InTurnLine(x, rs) >= x
    ensures DistinctOld(rs) && (exists j | 0 <= j < |rs| :: rs[j].oldLine == x < rs[j].newLine) ==> InTurnLine(x, rs) > x
    decreases |rs|
  {
    if rs != [] {
      OnlyForward(if x == rs[0].oldLine then rs[0].newLine else x, rs[1..]);
      if DistinctOld(rs) && x != rs[0].oldLine && exists j | 0 <= j < |rs| :: rs[j].oldLine == x < rs[j].newLine {
        var j :| 0 <= j < |rs| && rs[j].oldLine == x < rs[j].newLine;
        assert rs[1..][j - 1] == rs[j];
      }
    }
  }

  lemma {:induction false} NoRecaptureAgrees(x: nat, rs: seq<Mapping>)
    requires DistinctOld(rs) && NoRecapture(rs)
    ensures InTurnLine(x, rs) == AtOnceLine(x, rs)
  {
    if rs != [] {
      if x == rs[0].oldLine {
        Untouched(rs[0].newLine, rs[1..]);
      } else {
        NoRecaptureAgrees(x, rs[1..]);
      }
    }
  }

  lemma {:induction false} RecaptureDiffers(rs: seq<Mapping>, i: nat, j: nat)
    requires DistinctOld(rs) && Forward(rs) && i < j < |rs|
    requires rs[i].newLine == rs[j].oldLine < rs[j].newLine
    ensures AtOnceLine(rs[i].oldLine, rs) < InTurnLine(rs[i].oldLine, rs)
  {
    if i > 0 {
      RecaptureDiffers(rs[1..], i - 1, j - 1);
    } else {
      assert rs[1..][j - 1] == rs[j];
      OnlyForward(rs[0].newLine, rs[1..]);
    }
  }

  /** Callbacks in turn equal the simultaneous substitution exactly when none recaptures another's
      result. */
  lemma InTurnIsAtOnce(rs: seq<Mapping>)
    requires DistinctOld(rs) && Forward(rs)
    ensures (forall x: nat :: InTurnLine(x, rs) == AtOnceLine(x, rs)) <==> NoRecapture(rs)
  {
    if NoRecapture(rs) {
      forall x: nat ensures InTurnLine(x, rs) == AtOnceLine(x, rs) {
        NoRecaptureAgrees(x, rs);
      }
    } else {
      var i, j :| 0 <= i < j < |rs| && rs[i].newLine == rs[j].oldLine && rs[j].newLine != rs[j].oldLine;
      RecaptureDiffers(rs, i, j);
    }
  }

  /** Delivered from the highest old line down, every batch is safe. */
  lemma DescendingIsSafe(rs: seq<Mapping>, x: nat)
    requires Forward(rs)
    requires forall i, j | 0 <= i < j < |rs| :: rs[i].oldLine > rs[j].oldLine
    ensures InTurnLine(x, rs) == AtOnceLine(x, rs)
  {
    assert NoRecapture(rs);
    NoRecaptureAgrees(x, rs);
  }

  /** The batch a rebase delivers: `k` consecutive local lines moved up by `d`, lowest first. */
  function Shifted(first: nat, k: nat, d: nat): (rs: seq<Mapping>)
    ensures |rs| == k
  {
    seq(k, i requires 0 <= i < k => Mapping(first + i, first + d + i))
  }

  /** Lowest first, the ledger keeps the right numbers exactly when the remote put in at least as many
      lines as are pending. */
  lemma AscendingIsSafeIff(first: nat, k: nat, d: nat)
    requires d > 0
    ensures (forall x: nat :: InTurnLine(x, Shifted(first, k, d)) == AtOnceLine(x, Shifted(first, k, d))) <==> d >= k
  {
    var rs := Shifted(first, k, d);
    InTurnIsAtOnce(rs);
    if d < k {
      assert rs[0].newLine == rs[d].oldLine;
    }
  }

  /** Two pending messages on lines 5 and 6 moved up by one both end on line 7. */
  lemma TwoMessagesCollide(channel: string, a: string, b: string)
    ensures InTurn([Pending(channel, 5, a), Pending(channel, 6, b)], channel, Shifted(5, 2, 1))
         == [Pending(channel, 7, a), Pending(channel, 7, b)]
  {
    var ps := [Pending(channel, 5, a), Pending(channel, 6, b)];
    var rs := Shifted(5, 2, 1);
    assert rs[1..][1..] == [];
    InTurnPerLine(ps, channel, rs, 0);
    InTurnPerLine(ps, channel, rs, 1);
  }
}
