/** The scan over the whole `crons/` directory: which requests it makes, exactly, and what that means for
    every spec in it over a sequence of ticks. */
module CronTicks {
  import opened Results
  import opened CronEngine

  /** An occurrence the scan of this directory should request now. */
  ghost predicate IsDueIn(cx: Codec, dir: SpecDir, self: string, now: int, occ: int -> bool, t: int) {
    && dir.file.Parsed? && dir.file.spec.enabled && dir.file.spec.target == self
    && IsDue(occ, Clamp(RawAnchor(cx, dir), now), now, t)
  }

  ghost predicate Schedules(listing: seq<Listed>, occs: seq<int -> bool>) {
    |occs| == |listing|
    && forall i | 0 <= i < |listing| && listing[i].Dir? && listing[i].dir.file.Parsed? ::
         Follows(listing[i].dir.file.spec.next, occs[i])
  }

  /** The entry has a due occurrence. */
  ghost predicate Wants(cx: Codec, l: Listed, self: string, now: int, occ: int -> bool) {
    l.Dir? && exists t :: IsDueIn(cx, l.dir, self, now, occ, t)
  }

  /** The request is the entry's: its name, its spec and its due occurrence. */
  ghost predicate Asks(cx: Codec, l: Listed, self: string, now: int, occ: int -> bool, r: FireRequest) {
    l.Dir? && r.name == l.name && l.dir.file == Parsed(r.spec) && IsDueIn(cx, l.dir, self, now, occ, r.ts)
  }

  lemma FoundExactly(cx: Codec, l: Listed, self: string, now: int, occ: int -> bool)
    requires cx.Sound() && cx.Covers(now)
    requires l.Dir? && l.dir.file.Parsed? ==> Follows(l.dir.file.spec.next, occ)
    ensures var found := Found(cx, l, self, now);
      && |found| <= 1
      && (found != [] <==> Wants(cx, l, self, now, occ))
      && (found != [] ==> Asks(cx, l, self, now, occ, found[0]))
  {
    if l.Dir? {
      ScanMeaning(cx, l.dir, l.name, self, now, occ);
      hide ScanOne, Follows, RawAnchor, IsDue;
      var r := ScanOne(cx, l.dir, l.name, self, now);
      if r.Some? {
        assert IsDueIn(cx, l.dir, self, now, occ, r.value.ts);
      }
      if t :| IsDueIn(cx, l.dir, self, now, occ, t) {
        assert r.Some? && r.value.ts == t;
      }
    }
  }

  /** `at` lists the entries the requests belong to: all that have a due occurrence, in order. */
  ghost predicate Accounts(cx: Codec, listing: seq<Listed>, self: string, now: int, occs: seq<int -> bool>, due: seq<FireRequest>, at: seq<nat>)
  {
    && |occs| == |listing| && |at| == |due|
    && (forall j, k | 0 <= j < k < |at| :: at[j] < at[k])
    && (forall j | 0 <= j < |at| :: at[j] < |listing|)
    && (forall j | 0 <= j < |at| :: Asks(cx, listing[at[j]], self, now, occs[at[j]], due[j]))
    && (forall i | 0 <= i < |listing| :: i in at <==> Wants(cx, listing[i], self, now, occs[i]))
  }

  lemma AccountsSnoc(cx: Codec, listing: seq<Listed>, last: Listed, self: string, now: int, occs: seq<int -> bool>, occ: int -> bool,
                     due: seq<FireRequest>, found: seq<FireRequest>, at: seq<nat>)
    requires |occs| == |listing| && Accounts(cx, listing, self, now, occs, due, at)
    requires |found| <= 1 && (found != [] <==> Wants(cx, last, self, now, occ))
    requires found != [] ==> Asks(cx, last, self, now, occ, found[0])
    ensures Accounts(cx, listing + [last], self, now, occs + [occ], due + found, if found == [] then at else at + [|listing|])
  {
    hide Asks, Wants;
    var more, mores, at' := listing + [last], occs + [occ], if found == [] then at else at + [|listing|];
    assert forall i | 0 <= i < |listing| :: more[i] == listing[i] && mores[i] == occs[i];
    assert more[|listing|] == last && mores[|listing|] == occ;
    forall j | 0 <= j < |at'| ensures Asks(cx, more[at'[j]], self, now, mores[at'[j]], (due + found)[j]) {
      if j < |at| {
        assert Asks(cx, listing[at[j]], self, now, occs[at[j]], due[j]);
      }
    }
  }

  /** The requests are those of the directories that have a due occurrence, one each, in listing order, each
      with the directory's name, its spec and that occurrence; strays and broken specs are passed over. */
  lemma {:induction false} DueExactly(cx: Codec, listing: seq<Listed>, self: string, now: int, occs: seq<int -> bool>) returns (at: seq<nat>)
    requires cx.Sound() && cx.Covers(now) && Schedules(listing, occs)
    ensures Accounts(cx, listing, self, now, occs, Due(cx, listing, self, now), at)
  {
    hide Accounts, Schedules, Found, Due;
    at := [];
    DueUnfolds(cx, listing, self, now);
    if listing == [] {
      AccountsNone(cx, listing, self, now, occs);
    } else {
      var n := |listing| - 1;
      SchedulesInit(listing, occs);
      var init, last, occs', occ := listing[..n], listing[n], occs[..n], occs[n];
      var before := DueExactly(cx, init, self, now, occs');
      FoundExactly(cx, last, self, now, occ);
      AccountsSnoc(cx, init, last, self, now, occs', occ, Due(cx, init, self, now), Found(cx, last, self, now), before);
      assert listing == init + [last] && occs == occs' + [occ];
      at := if Found(cx, last, self, now) == [] then before else before + [n];
    }
  }

  lemma DueUnfolds(cx: Codec, listing: seq<Listed>, self: string, now: int)
    ensures listing == [] ==> Due(cx, listing, self, now) == []
    ensures listing != [] ==>
      Due(cx, listing, self, now) == Due(cx, listing[..|listing| - 1], self, now) + Found(cx, listing[|listing| - 1], self, now)
  {
    hide Found;
  }

  lemma AccountsNone(cx: Codec, listing: seq<Listed>, self: string, now: int, occs: seq<int -> bool>)
    requires listing == [] && Schedules(listing, occs)
    ensures Accounts(cx, listing, self, now, occs, [], [])
  {
  }

  lemma SchedulesInit(listing: seq<Listed>, occs: seq<int -> bool>)
    requires listing != [] && Schedules(listing, occs)
    ensures var n := |listing| - 1;
      && |occs| == n + 1 && Schedules(listing[..n], occs[..n])
      && (listing[n].Dir? && listing[n].dir.file.Parsed? ==> Follows(listing[n].dir.file.spec.next, occs[n]))
  {
    hide Follows;
  }

  /** Among directories of different names, a due one has exactly one request with its name. */
  lemma DueOnce(cx: Codec, listing: seq<Listed>, self: string, now: int, occs: seq<int -> bool>, i: nat, t: int)
    requires cx.Sound() && cx.Covers(now) && Schedules(listing, occs) && DistinctDirs(listing)
    requires i < |listing| && listing[i].Dir? && IsDueIn(cx, listing[i].dir, self, now, occs[i], t)
    ensures var due := Due(cx, listing, self, now);
      exists j | 0 <= j < |due| :: due[j].name == listing[i].name && due[j].ts == t
        && forall k | 0 <= k < |due| && due[k].name == listing[i].name :: k == j
  {
    var at := DueExactly(cx, listing, self, now, occs);
    var due := Due(cx, listing, self, now);
    hide Due, Found, RawAnchor;
    assert Wants(cx, listing[i], self, now, occs[i]);
    var j :| 0 <= j < |at| && at[j] == i;
    assert Asks(cx, listing[at[j]], self, now, occs[at[j]], due[j]);
    forall k | 0 <= k < |due| && due[k].name == listing[i].name ensures k == j {
      assert Asks(cx, listing[at[k]], self, now, occs[at[k]], due[k]);
    }
  }

  // ----- ticks over the whole directory

  /** The listed directories with their fires so far. */
  datatype Board = Board(listing: seq<Listed>, fired: seq<seq<int>>)

  function RequestFor(due: seq<FireRequest>, name: string): Option<FireRequest> {
    if due == [] then None
    else if due[0].name == name then Some(due[0])
    else RequestFor(due[1..], name)
  }

  function ServedDir(cx: Codec, l: Listed, due: seq<FireRequest>): Listed {
    if l.Dir? && RequestFor(due, l.name).Some?
    then Dir(l.name, l.dir.(names := l.dir.names + [FileName(cx, RequestFor(due, l.name).value.ts)])) else l
  }

  function ServedFires(fired: seq<int>, l: Listed, due: seq<FireRequest>): seq<int> {
    if l.Dir? && RequestFor(due, l.name).Some? then fired + [RequestFor(due, l.name).value.ts] else fired
  }

  /** One tick: scan everything, then fire every request, each successfully. */
  function TickAll(cx: Codec, self: string, b: Board, now: int): Board
    requires |b.fired| == |b.listing|
  {
    var due := Due(cx, b.listing, self, now);
    Board(seq(|b.listing|, i requires 0 <= i < |b.listing| => ServedDir(cx, b.listing[i], due)),
          seq(|b.listing|, i requires 0 <= i < |b.listing| => ServedFires(b.fired[i], b.listing[i], due)))
  }

  function RunAll(cx: Codec, self: string, listing: seq<Listed>, ticks: seq<int>): (b: Board)
    ensures |b.fired| == |b.listing| == |listing|
  {
    if ticks == [] then Board(listing, seq(|listing|, i => []))
    else TickAll(cx, self, RunAll(cx, self, listing, ticks[..|ticks| - 1]), ticks[|ticks| - 1])
  }

  predicate DistinctDirs(listing: seq<Listed>) {
    forall i, j | 0 <= i < j < |listing| && listing[i].Dir? && listing[j].Dir? :: listing[i].name != listing[j].name
  }

  lemma {:induction false} RequestForConcat(a: seq<FireRequest>, b: seq<FireRequest>, name: string)
    ensures RequestFor(a + b, name) == if RequestFor(a, name).Some? then RequestFor(a, name) else RequestFor(b, name)
  {
    if a == [] {
      assert a + b == b;
    } else {
      assert (a + b)[1..] == a[1..] + b;
      RequestForConcat(a[1..], b, name);
    }
  }

  lemma FoundFor(cx: Codec, l: Listed, self: string, now: int, name: string)
    ensures RequestFor(Found(cx, l, self, now), name)
         == if l.Dir? && l.name == name then ScanOne(cx, l.dir, name, self, now) else None
  {
    if Found(cx, l, self, now) != [] {
      assert Found(cx, l, self, now)[1..] == [];
      ScanNames(cx, l.dir, l.name, self, now);
    }
    hide ScanOne;
  }

  lemma ScanNames(cx: Codec, dir: SpecDir, name: string, self: string, now: int)
    ensures ScanOne(cx, dir, name, self, now).Some? ==> ScanOne(cx, dir, name, self, now).value.name == name
    ensures ScanOne(cx, dir, name, self, now).Some? <==> ScanOne(cx, dir, "", self, now).Some?
    ensures ScanOne(cx, dir, name, self, now).Some? ==>
      ScanOne(cx, dir, name, self, now).value.ts == ScanOne(cx, dir, "", self, now).value.ts
  {
  }

  lemma {:induction false} NoOther(cx: Codec, listing: seq<Listed>, self: string, now: int, name: string)
    requires forall i | 0 <= i < |listing| && listing[i].Dir? :: listing[i].name != name
    ensures RequestFor(Due(cx, listing, self, now), name) == None
  {
    hide Found, ScanOne;
    if listing != [] {
      NoOther(cx, listing[..|listing| - 1], self, now, name);
      FoundFor(cx, listing[|listing| - 1], self, now, name);
      RequestForConcat(Due(cx, listing[..|listing| - 1], self, now), Found(cx, listing[|listing| - 1], self, now), name);
    }
  }

  /** Among directories of different names, each gets what its own scan requests. */
  lemma {:induction false} DueFor(cx: Codec, listing: seq<Listed>, self: string, now: int, i: nat)
    requires DistinctDirs(listing) && i < |listing| && listing[i].Dir?
    ensures RequestFor(Due(cx, listing, self, now), listing[i].name) == ScanOne(cx, listing[i].dir, listing[i].name, self, now)
  {
    hide Found, ScanOne;
    var init, last := listing[..|listing| - 1], listing[|listing| - 1];
    var name := listing[i].name;
    RequestForConcat(Due(cx, init, self, now), Found(cx, last, self, now), name);
    FoundFor(cx, last, self, now, name);
    if i < |init| {
      DueFor(cx, init, self, now, i);
    } else {
      NoOther(cx, init, self, now, name);
    }
  }

  /** A spec of this handler among any others, broken ones and strays included, goes through the ticks as
      if it were alone. */
  lemma {:induction false} EachOnItsOwn(cx: Codec, self: string, listing: seq<Listed>, ticks: seq<int>, i: nat, spec: Spec)
    requires DistinctDirs(listing) && i < |listing| && listing[i].Dir? && listing[i].dir.file == Parsed(spec) && spec.target == self
    ensures var b, p := RunAll(cx, self, listing, ticks), Run(cx, spec, listing[i].dir.names, ticks);
      && DistinctDirs(b.listing)
      && b.listing[i] == Dir(listing[i].name, SpecDir(Parsed(spec), p.names)) && b.fired[i] == p.fired
  {
    hide ScanOne, Due;
    if ticks != [] {
      var init, now := ticks[..|ticks| - 1], ticks[|ticks| - 1];
      EachOnItsOwn(cx, self, listing, init, i, spec);
      var b := RunAll(cx, self, listing, init);
      DueFor(cx, b.listing, self, now, i);
      ScanNames(cx, b.listing[i].dir, b.listing[i].name, self, now);
      TickKeepsNames(cx, self, b, now);
    } else {
      assert listing[i].dir == SpecDir(Parsed(spec), listing[i].dir.names);
    }
  }

  lemma TickKeepsNames(cx: Codec, self: string, b: Board, now: int)
    requires |b.fired| == |b.listing| && DistinctDirs(b.listing)
    ensures DistinctDirs(TickAll(cx, self, b, now).listing)
  {
    hide Due, FileName;
    var c := TickAll(cx, self, b, now).listing;
    assert forall i | 0 <= i < |c| :: c[i].Dir? <==> b.listing[i].Dir?;
    assert forall i | 0 <= i < |c| && c[i].Dir? :: c[i].name == b.listing[i].name;
  }

  /** While the engine keeps ticking, no enabled spec of this handler in the directory loses an occurrence,
      whatever else is in there: each one after the first scan's anchor is fired once, in order, by the
      first tick a minute or more after it. */
  lemma NoneLost(cx: Codec, self: string, listing: seq<Listed>, ticks: seq<int>, i: nat, spec: Spec, occ: int -> bool)
    requires cx.Sound() && ticks != [] && Regular(ticks) && Covered(cx, ticks)
    requires DistinctDirs(listing) && i < |listing| && listing[i].Dir? && listing[i].dir.file == Parsed(spec)
    requires spec.target == self && spec.enabled && Follows(spec.next, occ) && Spaced(occ)
    ensures var fired := RunAll(cx, self, listing, ticks).fired[i];
      var start, now := FirstAnchor(cx, spec, listing[i].dir.names, ticks), ticks[|ticks| - 1];
      && Increasing(fired)
      && (forall o | o in fired :: occ(o) && start < o)
      && (forall o | occ(o) && start < o <= now - MINUTE :: o in fired)
      && (forall o, u | occ(o) && occ(u) && start < o <= now && start < u <= now && o !in fired && u !in fired :: o == u)
  {
    hide RunAll, Run, Regular, Covered, Follows, Spaced, FirstAnchor, Increasing;
    EachOnItsOwn(cx, self, listing, ticks, i, spec);
    NoLoss(cx, spec, listing[i].dir.names, ticks, occ);
  }
}
