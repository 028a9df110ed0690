/** One-shot timers: the sorting partition, cancellation by a piece of the id, and the ledger over
    whole runs of register, cancel and pop. */
module Timers {
  import opened Results
  import opened Text

  const MAX_PENDING: nat := 3

  datatype Timer = Timer(id: string, fireAt: int, createdAt: int, anchor: string, note: Option<string>)

  // ----- stable sort and partition

  predicate Sorted(s: seq<Timer>) {
    forall i, j | 0 <= i < j < |s| :: s[i].fireAt <= s[j].fireAt
  }

  /** Behind everything that is not later. */
  function Insert(s: seq<Timer>, t: Timer): (r: seq<Timer>)
    ensures |r| == |s| + 1
  {
    if s == [] || Last(s).fireAt <= t.fireAt then s + [t] else Insert(Init(s), t) + [Last(s)]
  }

  /** The library's stable sort by `fire_at`. */
  function Sort(s: seq<Timer>): (r: seq<Timer>)
    ensures |r| == |s|
  {
    if s == [] then [] else Insert(Sort(Init(s)), Last(s))
  }

  function Filter(s: seq<Timer>, p: Timer -> bool): (r: seq<Timer>)
    ensures |r| <= |s|
    ensures forall i | 0 <= i < |r| :: p(r[i])
  {
    if s == [] then [] else Filter(Init(s), p) + if p(Last(s)) then [Last(s)] else []
  }

  lemma {:induction false} InsertMembers(s: seq<Timer>, t: Timer)
    ensures multiset(Insert(s, t)) == multiset(s) + multiset{t}
  {
    if s != [] && Last(s).fireAt > t.fireAt {
      InsertMembers(Init(s), t);
      assert s == Init(s) + [Last(s)];
    }
  }

  lemma {:induction false} InsertBound(s: seq<Timer>, t: Timer, k: int)
    requires t.fireAt <= k && forall i | 0 <= i < |s| :: s[i].fireAt <= k
    ensures forall i | 0 <= i < |Insert(s, t)| :: Insert(s, t)[i].fireAt <= k
  {
    if s != [] && Last(s).fireAt > t.fireAt {
      InsertBound(Init(s), t, k);
    }
  }

  lemma {:induction false} InsertSorted(s: seq<Timer>, t: Timer)
    requires Sorted(s)
    ensures Sorted(Insert(s, t))
  {
    if s != [] && Last(s).fireAt > t.fireAt {
      InsertSorted(Init(s), t);
      InsertBound(Init(s), t, Last(s).fireAt);
    }
  }

  /** Sorting orders by due time and keeps every timer. */
  lemma {:induction false} SortSorts(s: seq<Timer>)
    ensures Sorted(Sort(s)) && multiset(Sort(s)) == multiset(s)
  {
    hide Insert;
    if s != [] {
      var s', l := Init(s), Last(s);
      SortSorts(s');
      assert s == s' + [l];
      SortSnoc(s', l);
      hide Sort, Sorted;
      InsertSorted(Sort(s'), l);
      InsertMembers(Sort(s'), l);
    }
  }

  lemma {:induction false} FilterBound(s: seq<Timer>, p: Timer -> bool, k: int)
    requires forall i | 0 <= i < |s| :: s[i].fireAt <= k
    ensures forall i | 0 <= i < |Filter(s, p)| :: Filter(s, p)[i].fireAt <= k
  {
    if s != [] {
      FilterBound(Init(s), p, k);
    }
  }

  lemma FilterSnoc(s: seq<Timer>, t: Timer, p: Timer -> bool)
    ensures Filter(s + [t], p) == Filter(s, p) + if p(t) then [t] else []
  {
    assert Init(s + [t]) == s;
  }

  lemma InsertSnoc(s: seq<Timer>, l: Timer, t: Timer)
    requires l.fireAt > t.fireAt
    ensures Insert(s + [l], t) == Insert(s, t) + [l]
  {
    assert Init(s + [l]) == s;
  }

  lemma {:induction false} FilterInsert(s: seq<Timer>, t: Timer, p: Timer -> bool)
    requires Sorted(s)
    ensures Filter(Insert(s, t), p) == if p(t) then Insert(Filter(s, p), t) else Filter(s, p)
  {
    hide Filter, Insert;
    if s == [] || Last(s).fireAt <= t.fireAt {
      InsertLast(s, t);
      FilterSnoc(s, t, p);
      if s != [] {
        FilterBound(s, p, Last(s).fireAt);
      } else {
        FilterBound(s, p, t.fireAt);
      }
      InsertLast(Filter(s, p), t);
      assert Filter(s, p) + [] == Filter(s, p);
    } else {
      var s', l := Init(s), Last(s);
      assert s == s' + [l];
      InsertSnoc(s', l, t);
      FilterInsert(s', t, p);
      FilterSnoc(Insert(s', t), l, p);
      FilterSnoc(s', l, p);
      InsertSnoc(Filter(s', p), l, t);
      assert Filter(s', p) + [] == Filter(s', p);
      assert Insert(Filter(s', p), t) + [] == Insert(Filter(s', p), t);
    }
  }

  lemma InsertLast(s: seq<Timer>, t: Timer)
    requires s == [] || Last(s).fireAt <= t.fireAt
    ensures Insert(s, t) == s + [t]
  {
  }

  /** Any selection of the sorted list is the sorted selection: the sort never reorders within it. */
  lemma {:induction false} SortStable(s: seq<Timer>, p: Timer -> bool)
    ensures Filter(Sort(s), p) == Sort(Filter(s, p))
  {
    if s != [] {
      var s', l := Init(s), Last(s);
      SortStable(s', p);
      assert s == s' + [l];
      SortStableSnoc(s', l, p);
    } else {
      assert Sort([]) == [] && Filter([], p) == [];
    }
  }

  lemma SortStableSnoc(s: seq<Timer>, l: Timer, p: Timer -> bool)
    requires Filter(Sort(s), p) == Sort(Filter(s, p))
    ensures Filter(Sort(s + [l]), p) == Sort(Filter(s + [l], p))
  {
    hide Filter, Sort, Insert, Sorted;
    SortSorts(s);
    SortSnoc(s, l);
    FilterSnoc(s, l, p);
    SortSnoc(Filter(s, p), l);
    FilterInsert(Sort(s), l, p);
    assert Filter(s, p) + [] == Filter(s, p);
  }

  lemma SortSnoc(s: seq<Timer>, t: Timer)
    ensures Sort(s + [t]) == Insert(Sort(s), t)
  {
    assert Init(s + [t]) == s;
  }

  lemma {:induction false} SortOfSorted(s: seq<Timer>)
    requires Sorted(s)
    ensures Sort(s) == s
  {
    if s != [] {
      SortOfSorted(Init(s));
    }
  }

  /** Timers due at the same instant keep their registration order. */
  lemma EqualsKeepOrder(s: seq<Timer>, k: int)
    ensures Filter(Sort(s), (t: Timer) => t.fireAt == k) == Filter(s, (t: Timer) => t.fireAt == k)
  {
    var p := (t: Timer) => t.fireAt == k;
    SortStable(s, p);
    SortOfSorted(Filter(s, p));
  }

  function Due(now: int): Timer -> bool {
    (t: Timer) => t.fireAt <= now
  }

  function NotDue(now: int): Timer -> bool {
    (t: Timer) => t.fireAt > now
  }

  /** The two halves are the due and the other timers, each stably sorted, despite the note that the
      fired half keeps its input order. */
  method PartitionFired(timers: seq<Timer>, now: int) returns (fired: seq<Timer>, pending: seq<Timer>)
    ensures fired == Sort(Filter(timers, Due(now)))
    ensures pending == Sort(Filter(timers, NotDue(now)))
  {
    var sorted := Sort(timers);
    fired, pending := [], [];
    assert sorted[..0] == [];
    for i := 0 to |sorted|
      invariant fired == Filter(sorted[..i], Due(now))
      invariant pending == Filter(sorted[..i], NotDue(now))
    {
      hide Sort;
      var t := sorted[i];
      assert sorted[..i + 1] == sorted[..i] + [t];
      FilterSnoc(sorted[..i], t, Due(now));
      FilterSnoc(sorted[..i], t, NotDue(now));
      if t.fireAt <= now {
        fired := fired + [t];
      } else {
        pending := pending + [t];
      }
    }
    assert sorted[..|sorted|] == sorted;
    SortStable(timers, Due(now));
    SortStable(timers, NotDue(now));
  }

  lemma {:induction false} HalvesConserve(s: seq<Timer>, now: int)
    ensures multiset(s) == multiset(Filter(s, Due(now))) + multiset(Filter(s, NotDue(now)))
  {
    if s != [] {
      HalvesConserve(Init(s), now);
      assert s == Init(s) + [Last(s)];
    }
  }

  lemma {:induction false} FilterCounts(s: seq<Timer>, p: Timer -> bool, t: Timer)
    ensures multiset(Filter(s, p))[t] == if p(t) then multiset(s)[t] else 0
  {
    if s != [] {
      var s', l := Init(s), Last(s);
      FilterCounts(s', p, t);
      assert s == s' + [l];
      FilterSnoc(s', l, p);
      CountSnoc(s', l, t);
      CountSnoc(Filter(s', p), l, t);
    }
  }

  lemma CountSnoc(s: seq<Timer>, l: Timer, t: Timer)
    ensures multiset(s + [l])[t] == multiset(s)[t] + if l == t then 1 else 0
  {
  }

  /** The fired half holds the timers whose time has come, as often as the list does, and the other half
      the rest; both are in order of due time. */
  lemma PartitionExactly(s: seq<Timer>, now: int, t: Timer)
    ensures var fired, pending := Sort(Filter(s, Due(now))), Sort(Filter(s, NotDue(now)));
      && multiset(fired)[t] == (if t.fireAt <= now then multiset(s)[t] else 0)
      && multiset(pending)[t] == (if t.fireAt > now then multiset(s)[t] else 0)
      && (forall i, j | 0 <= i < j < |fired| :: fired[i].fireAt <= fired[j].fireAt)
      && (forall i, j | 0 <= i < j < |pending| :: pending[i].fireAt <= pending[j].fireAt)
  {
    hide Sort, Filter;
    FilterCounts(s, Due(now), t);
    FilterCounts(s, NotDue(now), t);
    SortSorts(Filter(s, Due(now)));
    SortSorts(Filter(s, NotDue(now)));
  }

  // ----- peek

  function Peek(s: seq<Timer>): Option<int> {
    if s == [] then None
    else
      match Peek(Init(s))
      case None => Some(Last(s).fireAt)
      case Some(m) => Some(if Last(s).fireAt < m then Last(s).fireAt else m)
  }

  /** The peeked time is the earliest due time. */
  lemma {:induction false} PeekIsEarliest(s: seq<Timer>)
    ensures Peek(s).None? <==> s == []
    ensures s != [] ==>
      && (exists i | 0 <= i < |s| :: s[i].fireAt == Peek(s).value)
      && forall i | 0 <= i < |s| :: Peek(s).value <= s[i].fireAt
  {
    if s != [] {
      PeekIsEarliest(Init(s));
      if Peek(s).value == Last(s).fireAt {
        assert s[|s| - 1].fireAt == Peek(s).value;
      } else {
        var i :| 0 <= i < |s| - 1 && Init(s)[i].fireAt == Peek(Init(s)).value;
        assert s[i].fireAt == Peek(s).value;
      }
    }
  }

  /** A pop finds something exactly when the peeked due time has come. */
  lemma {:induction false} PeekTellsPop(s: seq<Timer>, now: int)
    ensures Filter(s, Due(now)) != [] <==> Peek(s).Some? && Peek(s).value <= now
  {
    if s != [] {
      PeekTellsPop(Init(s), now);
    }
  }

  // ----- cancel

  predicate Contains(id: string, needle: string) {
    needle <= id || (id != "" && Contains(id[1..], needle))
  }

  lemma {:induction false} AroundContains(a: string, needle: string, b: string)
    ensures Contains(a + needle + b, needle)
  {
    if a == "" {
      assert a + needle + b == needle + b;
    } else {
      AroundContains(a[1..], needle, b);
      assert (a + needle + b)[1..] == a[1..] + needle + b;
    }
  }

  lemma {:induction false} ContainedAt(id: string, needle: string) returns (a: string, b: string)
    requires Contains(id, needle)
    ensures id == a + needle + b
  {
    if needle <= id {
      a, b := "", id[|needle|..];
    } else {
      a, b := ContainedAt(id[1..], needle);
      a := [id[0]] + a;
    }
  }

  /** A needle is in an id exactly when the id is the needle with something, or nothing, on either side. */
  lemma ContainsExactly(id: string, needle: string)
    ensures Contains(id, needle) <==> exists a, b :: id == a + needle + b
  {
    if Contains(id, needle) {
      var a, b := ContainedAt(id, needle);
    }
    if a, b :| id == a + needle + b {
      AroundContains(a, needle, b);
    }
  }

  lemma {:induction false} ContainsLength(id: string, needle: string)
    requires Contains(id, needle)
    ensures |needle| <= |id|
    ensures |needle| == |id| ==> needle == id
  {
    if !(needle <= id) {
      ContainsLength(id[1..], needle);
    }
  }

  datatype Match = NoMatch | Ambiguous(count: nat) | Removed(index: nat)

  datatype CancelResult = Cancelled(id: string) | NotCancelled(why: Match) | WriteFailed

  function Matches(s: seq<Timer>, needle: string): (r: seq<nat>)
    ensures forall k | 0 <= k < |r| :: r[k] < |s| && Contains(s[r[k]].id, needle)
    ensures forall i | 0 <= i < |s| && Contains(s[i].id, needle) :: i in r
    ensures forall k, l | 0 <= k < l < |r| :: r[k] < r[l]
  {
    if s == [] then []
    else Matches(Init(s), needle) + if Contains(Last(s).id, needle) then [|s| - 1] else []
  }

  function Chosen(s: seq<Timer>, needle: string): (r: Match)
    ensures r.Removed? ==> r.index < |s|
  {
    var m := Matches(s, needle);
    if |m| == 0 then NoMatch else if |m| == 1 then Removed(m[0]) else Ambiguous(|m|)
  }

  method FindMatches(s: seq<Timer>, needle: string) returns (found: seq<nat>)
    ensures found == Matches(s, needle)
  {
    found := [];
    assert s[..0] == [];
    for i := 0 to |s|
      invariant found == Matches(s[..i], needle)
    {
      assert Init(s[..i + 1]) == s[..i];
      if Contains(s[i].id, needle) {
        found := found + [i];
      }
    }
    assert s[..|s|] == s;
  }

  /** A timer is chosen exactly when it is the only one whose id holds the needle. */
  lemma ChosenIsUnique(s: seq<Timer>, needle: string, i: nat)
    requires i < |s|
    ensures Chosen(s, needle) == Removed(i)
      <==> forall j | 0 <= j < |s| :: Contains(s[j].id, needle) <==> j == i
  {
    hide Contains, Matches;
    var m := Matches(s, needle);
    assert Contains(s[i].id, needle) ==> i in m;
    if forall j | 0 <= j < |s| :: Contains(s[j].id, needle) <==> j == i {
      var first, last := m[0], m[|m| - 1];
      assert first == i && last == i;
    }
  }

  lemma {:induction false} DistinctCount(m: seq<nat>, all: set<nat>)
    requires forall k, l | 0 <= k < l < |m| :: m[k] < m[l]
    requires forall i :: i in m <==> i in all
    ensures |all| == |m|
  {
    if m == [] {
      assert all == {};
    } else {
      var n := |m| - 1;
      assert m[n] in all;
      forall i ensures i in m[..n] <==> i in all - {m[n]} {
        assert m == m[..n] + [m[n]];
      }
      DistinctCount(m[..n], all - {m[n]});
    }
  }

  /** The timers whose id is the needle with something, or nothing, on either side. */
  ghost function Hits(s: seq<Timer>, needle: string): set<nat> {
    set i: nat | i < |s| && exists a, b :: s[i].id == a + needle + b
  }

  /** The answer counts the ids that hold the needle: none, exactly one, or that many. */
  lemma ChosenExactly(s: seq<Timer>, needle: string)
    ensures Chosen(s, needle) == NoMatch <==> Hits(s, needle) == {}
    ensures forall i: nat :: Chosen(s, needle) == Removed(i) <==> Hits(s, needle) == {i}
    ensures forall n: nat :: Chosen(s, needle) == Ambiguous(n) <==> n > 1 && |Hits(s, needle)| == n
  {
    var m := Matches(s, needle);
    forall i: nat ensures i in m <==> i in Hits(s, needle) {
      if i < |s| {
        ContainsExactly(s[i].id, needle);
      }
    }
    hide Contains, Matches;
    hide Hits;
    DistinctCount(m, Hits(s, needle));
    forall i: nat ensures Chosen(s, needle) == Removed(i) <==> Hits(s, needle) == {i} {
      if Chosen(s, needle) == Removed(i) {
        assert m == [i];
        assert Hits(s, needle) == {i};
      }
      if Hits(s, needle) == {i} {
        assert |m| == 1 && m[0] in m;
      }
    }
  }

  /** With distinct ids of equal length a full id cancels exactly its own timer. */
  lemma FullIdIsExact(s: seq<Timer>, i: nat)
    requires i < |s|
    requires forall j, k | 0 <= j < k < |s| :: s[j].id != s[k].id && |s[j].id| == |s[k].id|
    ensures Chosen(s, s[i].id) == Removed(i)
  {
    forall j | 0 <= j < |s| ensures Contains(s[j].id, s[i].id) <==> j == i {
      if Contains(s[j].id, s[i].id) {
        ContainsLength(s[j].id, s[i].id);
      }
    }
    hide Contains, Chosen;
    ChosenIsUnique(s, s[i].id, i);
  }

  // ----- the ledger

  datatype Request =
    | Register(timer: Timer, anchorOk: bool, writeOk: bool)
    | Cancel(needle: string, writeOk: bool)
    | Pop(now: int, writeOk: bool)

  /** The file, and what ever became of a timer; `poppedAt` is when each popped one was handed out. */
  datatype State = State(file: seq<Timer>, registered: multiset<Timer>, popped: seq<Timer>, cancelled: seq<Timer>, poppedAt: seq<int>)

  function Removing(s: seq<Timer>, i: nat): seq<Timer>
    requires i < |s|
  {
    s[..i] + s[i + 1..]
  }

  function Next(s: State, r: Request): State {
    match r
    case Register(t, anchorOk, writeOk) =>
      if |s.file| >= MAX_PENDING || !anchorOk || !writeOk then s
      else s.(file := s.file + [t], registered := s.registered + multiset{t})
    case Cancel(needle, writeOk) =>
      if !Chosen(s.file, needle).Removed? || !writeOk then s
      else
        var i := Chosen(s.file, needle).index;
        s.(file := Removing(s.file, i), cancelled := s.cancelled + [s.file[i]])
    case Pop(now, writeOk) =>
      var fired := Sort(Filter(s.file, Due(now)));
      if fired == [] || !writeOk then s
      else s.(file := Sort(Filter(s.file, NotDue(now))), popped := s.popped + fired,
              poppedAt := s.poppedAt + seq(|fired|, _ => now))
  }

  /** The locked file operations. */
  class Store {
    var file: seq<Timer>

    constructor ()
      ensures file == []
    {
      file := [];
    }

    /** Refused at the cap, for an empty anchor, or when the write fails. */
    method RegisterTimer(t: Timer, anchorOk: bool, writeOk: bool) returns (ok: bool)
      modifies this
      ensures ok <==> |old(file)| < 3 && anchorOk && writeOk
      ensures forall s: State | s.file == old(file) :: Next(s, Register(t, anchorOk, writeOk)).file == file
      ensures file == if ok then old(file) + [t] else old(file)
    {
      if |file| >= MAX_PENDING || !anchorOk || !writeOk {
        return false;
      }
      file := file + [t];
      return true;
    }

    method CancelTimer(needle: string, writeOk: bool) returns (r: CancelResult)
      modifies this
      ensures var m := Chosen(old(file), needle);
        r == if !m.Removed? then NotCancelled(m) else if writeOk then Cancelled(old(file)[m.index].id) else WriteFailed
      ensures forall s: State | s.file == old(file) :: Next(s, Cancel(needle, writeOk)).file == file
      ensures !r.Cancelled? ==> file == old(file)
      ensures r.Cancelled? ==> exists i | 0 <= i < |old(file)| ::
        old(file)[i].id == r.id && Contains(r.id, needle) && file == old(file)[..i] + old(file)[i + 1..]
    {
      hide Matches, Contains;
      var found := FindMatches(file, needle);
      if |found| == 0 {
        return NotCancelled(NoMatch);
      }
      if |found| > 1 {
        return NotCancelled(Ambiguous(|found|));
      }
      if !writeOk {
        return WriteFailed;
      }
      var id := file[found[0]].id;
      file := file[..found[0]] + file[found[0] + 1..];
      return Cancelled(id);
    }

    /** None when the write fails; then nothing leaves the file. */
    method PopFiredTimers(now: int, writeOk: bool) returns (fired: Option<seq<Timer>>)
      modifies this
      ensures var due := Sort(Filter(old(file), Due(now)));
        fired == if due == [] then Some([]) else if writeOk then Some(due) else None
      ensures forall s: State | s.file == old(file) :: Next(s, Pop(now, writeOk)).file == file
      ensures fired.None? || fired.value == [] ==> file == old(file)
    {
      hide Sort, Filter;
      var due, pending := PartitionFired(file, now);
      if due == [] {
        return Some([]);
      }
      if !writeOk {
        return None;
      }
      file := pending;
      return Some(due);
    }
  }

  function Exec(rs: seq<Request>): State {
    if rs == [] then State([], multiset{}, [], [], []) else Next(Exec(Init(rs)), Last(rs))
  }

  predicate Inv(s: State) {
    && s.registered == multiset(s.file) + multiset(s.popped) + multiset(s.cancelled)
    && |s.file| <= MAX_PENDING
    && |s.poppedAt| == |s.popped|
    && forall i | 0 <= i < |s.popped| :: s.popped[i].fireAt <= s.poppedAt[i]
  }

  lemma RemovingConserves(s: seq<Timer>, i: nat)
    requires i < |s|
    ensures multiset(s) == multiset(Removing(s, i)) + multiset{s[i]}
  {
    assert s == s[..i] + [s[i]] + s[i + 1..];
  }

  lemma PopKeepsInv(s: State, now: int)
    requires Inv(s)
    ensures Inv(Next(s, Pop(now, true)))
  {
    DueOnly(s.file, now);
    hide Sort, Filter, Due, NotDue;
    var fired, rest := Filter(s.file, Due(now)), Filter(s.file, NotDue(now));
    HalvesConserve(s.file, now);
    SortSorts(fired);
    SortSorts(rest);
    SortedKeeps(fired, now);
    assert multiset(s.popped + Sort(fired)) == multiset(s.popped) + multiset(fired);
  }

  lemma DueOnly(s: seq<Timer>, now: int)
    ensures forall i | 0 <= i < |Filter(s, Due(now))| :: Filter(s, Due(now))[i].fireAt <= now
  {
  }

  lemma SortedKeeps(s: seq<Timer>, now: int)
    requires forall i | 0 <= i < |s| :: s[i].fireAt <= now
    ensures forall i | 0 <= i < |Sort(s)| :: Sort(s)[i].fireAt <= now
  {
    SortSorts(s);
    hide Sort;
    forall i | 0 <= i < |Sort(s)| ensures Sort(s)[i].fireAt <= now {
      assert Sort(s)[i] in multiset(Sort(s));
      assert Sort(s)[i] in multiset(s);
    }
  }

  /** Over every run: each registered timer is pending, popped or cancelled, once; at most three are
      pending; and none was popped before its time. */
  lemma {:induction false} LedgerConserves(rs: seq<Request>)
    ensures Inv(Exec(rs))
  {
    hide Inv, Next;
    if rs == [] {
      EmptyInv();
    } else {
      LedgerConserves(Init(rs));
      NextKeepsInv(Exec(Init(rs)), Last(rs));
    }
  }

  lemma EmptyInv()
    ensures Inv(State([], multiset{}, [], [], []))
  {
  }

  lemma NextKeepsInv(s: State, r: Request)
    requires Inv(s)
    ensures Inv(Next(s, r))
  {
    hide Sort, Filter, Chosen, Due, NotDue;
    match r {
      case Register(_, _, _) =>
      case Cancel(needle, _) => CancelKeepsInv(s, needle);
      case Pop(now, _) => PopKeepsInv(s, now);
    }
  }

  lemma CancelKeepsInv(s: State, needle: string)
    requires Inv(s)
    ensures Inv(Next(s, Cancel(needle, true)))
  {
    hide Chosen;
    ChosenInRange(s.file, needle);
    if Chosen(s.file, needle).Removed? {
      RemovingConserves(s.file, Chosen(s.file, needle).index);
    }
  }

  lemma ChosenInRange(s: seq<Timer>, needle: string)
    ensures Chosen(s, needle).Removed? ==> Chosen(s, needle).index < |s|
  {
  }
}
