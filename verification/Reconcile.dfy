/** Reconciling orphan cards: cards left under a channel whose metadata has moved to the archive are
    stamped and moved after it. */
module Reconcile {
  import opened Results
  import opened Rollback

  datatype Key = Key(channel: string, id: string)

  /** A card directory: its `card.meta.yaml`, if there is one, and its other files. */
  datatype Card = Card(meta: Option<string>, files: map<string, string>)

  datatype Store = Store(
    activeMeta: set<string>, archivedMeta: set<string>, active: map<Key, Card>, archived: map<Key, Card>)

  predicate Orphan(s: Store, channel: string) {
    channel !in s.activeMeta && channel in s.archivedMeta
  }

  /** The cards to migrate. */
  predicate Target(s: Store, k: Key) {
    k in s.active && Orphan(s, k.channel) && s.active[k].meta.Some?
  }

  predicate Readable(yaml: Yaml, c: Card) {
    c.meta.Some? && yaml.parse(c.meta.value).Some?
  }

  function Stamped(yaml: Yaml, c: Card): Card {
    if Readable(yaml, c) then
      c.(meta := Some(yaml.render(yaml.parse(c.meta.value).value.(archivedVia := Some("channel")))))
    else c
  }

  /** The active cards once the targets among `done` are stamped. */
  function StampedOf(yaml: Yaml, s: Store, done: set<Key>): map<Key, Card> {
    map k | k in s.active :: if k in done && Target(s, k) then Stamped(yaml, s.active[k]) else s.active[k]
  }

  function Targets(s: Store): set<Key> {
    set k | k in s.active && Target(s, k)
  }

  /** What a complete pass makes of the store. */
  function Reconciled(yaml: Yaml, s: Store): Store {
    s.(active := map k | k in s.active && !Target(s, k) :: s.active[k],
       archived := map k | k in s.archived.Keys + Targets(s) ::
         if k in Targets(s) then Stamped(yaml, s.active[k]) else s.archived[k])
  }

  predicate Distinct<T(==)>(xs: seq<T>) {
    forall i, j | 0 <= i < j < |xs| :: xs[i] != xs[j]
  }

  function Keys(channel: string, ids: seq<string>): set<Key> {
    set i | 0 <= i < |ids| :: Key(channel, ids[i])
  }

  function KeySet(ks: seq<Key>): set<Key> {
    set i | 0 <= i < |ks| :: ks[i]
  }

  lemma KeysSnoc(channel: string, ids: seq<string>, i: nat)
    requires i < |ids|
    ensures Keys(channel, ids[..i + 1]) == Keys(channel, ids[..i]) + {Key(channel, ids[i])}
  {
    var more := ids[..i + 1];
    forall k | k in Keys(channel, ids[..i]) ensures k in Keys(channel, more) {
      var j :| 0 <= j < i && k == Key(channel, ids[..i][j]);
      assert more[j] == ids[..i][j];
    }
    assert more[i] == ids[i];
  }

  lemma KeySetSnoc(ks: seq<Key>, k: Key)
    ensures KeySet(ks + [k]) == KeySet(ks) + {k}
  {
    var more := ks + [k];
    assert more[|ks|] == k;
    forall x | x in KeySet(ks) ensures x in KeySet(more) {
      var j :| 0 <= j < |ks| && ks[j] == x;
      assert more[j] == x;
    }
  }

  /** Where the scan stands: only stamps were written, and `moves` lists the targets met, once each. */
  ghost predicate Scanned(yaml: Yaml, s0: Store, s: Store, done: set<Key>, moves: seq<Key>) {
    && s == s0.(active := StampedOf(yaml, s0, done))
    && Distinct(moves)
    && (forall k :: k in KeySet(moves) <==> k in done && Target(s0, k))
  }

  const THREAD: string := "discussion.thread"

  datatype RunResult = Migrated(count: nat) | Unreadable | CommitFailed

  class Workspace {
    var s: Store

    constructor (s: Store)
      ensures this.s == s
    {
      this.s := s;
    }

    /** The inner loop, over the cards of one orphan channel. */
    method StampChannel(yaml: Yaml, ghost s0: Store, ghost done: set<Key>, moves: seq<Key>, channel: string, ids: seq<string>)
      returns (ok: bool, moves': seq<Key>)
      requires Scanned(yaml, s0, s, done, moves) && Orphan(s0, channel)
      requires forall i | 0 <= i < |ids| :: Key(channel, ids[i]) in s0.active && Key(channel, ids[i]) !in done
      requires Distinct(ids)
      modifies this
      ensures ok ==> Scanned(yaml, s0, s, done + Keys(channel, ids), moves')
      ensures !ok ==> exists some: set<Key> :: s == s0.(active := StampedOf(yaml, s0, some))
      ensures !ok ==> exists k :: Target(s0, k) && !Readable(yaml, s0.active[k])
      ensures ok ==> forall i | 0 <= i < |ids| && Target(s0, Key(channel, ids[i])) :: Readable(yaml, s0.active[Key(channel, ids[i])])
    {
      hide Stamped;
      moves' := moves;
      assert done + Keys(channel, ids[..0]) == done;
      for i := 0 to |ids|
        invariant Scanned(yaml, s0, s, done + Keys(channel, ids[..i]), moves')
        invariant forall j | 0 <= j < i && Target(s0, Key(channel, ids[j])) :: Readable(yaml, s0.active[Key(channel, ids[j])])
      {
        var k := Key(channel, ids[i]);
        ghost var seen := done + Keys(channel, ids[..i]);
        KeysSnoc(channel, ids, i);
        NotYet(done, channel, ids, i);
        assert seen + {k} == done + Keys(channel, ids[..i + 1]);
        if s.active[k].meta.Some? {
          if yaml.parse(s.active[k].meta.value).None? {
            assert Target(s0, k);
            return false, moves';
          }
          StampOne(yaml, s0, s, seen, moves', k);
          s := s.(active := s.active[k := Stamped(yaml, s.active[k])]);
          moves' := moves' + [k];
        } else {
          SkipOne(yaml, s0, s, seen, moves', k);
        }
      }
      assert ids[..|ids|] == ids;
      ok := true;
    }

    /** The moves, one directory after the other. */
    method MoveAll(moves: seq<Key>)
      requires Distinct(moves) && forall i | 0 <= i < |moves| :: moves[i] in s.active && moves[i] !in s.archived
      modifies this
      ensures s == old(s).(
        active := old(s).active - KeySet(moves),
        archived := map k | k in old(s).archived.Keys + KeySet(moves) ::
          if k in KeySet(moves) then (if k in old(s).active then old(s).active[k] else Card(None, map[])) else old(s).archived[k])
    {
      for i := 0 to |moves|
        invariant s == old(s).(
          active := old(s).active - KeySet(moves[..i]),
          archived := map k | k in old(s).archived.Keys + KeySet(moves[..i]) ::
            if k in KeySet(moves[..i]) then (if k in old(s).active then old(s).active[k] else Card(None, map[])) else old(s).archived[k])
      {
        var k := moves[i];
        assert moves[..i + 1] == moves[..i] + [k];
        KeySetSnoc(moves[..i], k);
        s := s.(active := s.active - {k}, archived := s.archived[k := s.active[k]]);
      }
      assert moves[..|moves|] == moves;
    }

    /** `reconcile_orphan_cards` over a complete listing, all writes and moves succeeding: it migrates every
        target and nothing else and commits; or stops at an unreadable card having moved nothing and at
        most stamped some targets; or fails to commit, everything moved and nothing taken back, because
        some card has no discussion thread to add. */
    method Run(yaml: Yaml, channels: seq<string>, cards: map<string, seq<string>>) returns (r: RunResult)
      requires Distinct(channels)
      requires forall c | c in channels :: c in cards && Distinct(cards[c])
      requires forall k :: k in s.active <==> k.channel in channels && k.id in cards[k.channel]
      requires forall k | Target(s, k) :: k !in s.archived
      modifies this
      ensures r == Unreadable <==> exists k :: Target(old(s), k) && !Readable(yaml, old(s).active[k])
      ensures r == Unreadable ==> exists some: set<Key> :: s == old(s).(active := StampedOf(yaml, old(s), some))
      ensures r != Unreadable ==> s == Reconciled(yaml, old(s))
      ensures r == CommitFailed <==> r != Unreadable && exists k :: Target(old(s), k) && THREAD !in old(s).active[k].files
      ensures r.Migrated? ==> r.count == |Targets(old(s))|
    {
      hide Stamped, Scanned, StampedOf, Reconciled, Readable, KeySet, Targets;
      ghost var s0 := s;
      ghost var done: set<Key> := {};
      var moves: seq<Key> := [];
      Unstamped(yaml, s0);
      for i := 0 to |channels|
        invariant Scanned(yaml, s0, s, done, moves)
        invariant forall k | k in done :: exists j | 0 <= j < i :: channels[j] == k.channel
        invariant forall k | k in s0.active && Orphan(s0, k.channel) && (exists j | 0 <= j < i :: channels[j] == k.channel) :: k in done
        invariant forall k | k in done && Target(s0, k) :: Readable(yaml, s0.active[k])
      {
        var channel := channels[i];
        ScannedOrphan(yaml, s0, s, done, moves, channel);
        if Orphan(s, channel) {
          ListedOnce(s0, channels, cards, done, i);
          var ok;
          ghost var was := done;
          ok, moves := StampChannel(yaml, s0, done, moves, channel, cards[channel]);
          if !ok {
            return Unreadable;
          }
          done := done + Keys(channel, cards[channel]);
          ChannelDone(s0, channel, cards[channel], was);
        }
      }
      MovesAreTargets(yaml, s0, s, done, moves);
      if moves == [] {
        NoTargets(s0, moves);
        NothingToDo(yaml, s0, s);
        return Migrated(0);
      }
      MoveAll(moves);
      Finished(yaml, s0, done, moves);
      AllArchived(yaml, s0, moves);
      if exists i | 0 <= i < |moves| :: THREAD !in s.archived[moves[i]].files {
        return CommitFailed;
      }
      return Migrated(|moves|);
    }
  }

  /** The moved cards are archived with their files. */
  lemma AllArchived(yaml: Yaml, s0: Store, moves: seq<Key>)
    requires KeySet(moves) == Targets(s0)
    ensures var t := Reconciled(yaml, s0);
      && (forall i | 0 <= i < |moves| :: moves[i] in t.archived)
      && ((exists i | 0 <= i < |moves| :: THREAD !in t.archived[moves[i]].files)
          <==> exists k :: Target(s0, k) && THREAD !in s0.active[k].files)
  {
    var t := Reconciled(yaml, s0);
    forall i | 0 <= i < |moves| ensures moves[i] in t.archived && t.archived[moves[i]].files == s0.active[moves[i]].files && Target(s0, moves[i]) {
      assert moves[i] in KeySet(moves);
    }
    if k :| Target(s0, k) && THREAD !in s0.active[k].files {
      assert k in Targets(s0) && k in KeySet(moves);
      var i :| 0 <= i < |moves| && moves[i] == k;
      assert THREAD !in t.archived[moves[i]].files;
    }
  }

  lemma ScannedOrphan(yaml: Yaml, s0: Store, s: Store, done: set<Key>, moves: seq<Key>, channel: string)
    requires Scanned(yaml, s0, s, done, moves)
    ensures Orphan(s, channel) <==> Orphan(s0, channel)
  {
    hide StampedOf;
  }

  lemma NoTargets(s0: Store, moves: seq<Key>)
    requires KeySet(moves) == Targets(s0) && moves == []
    ensures Targets(s0) == {} && forall k :: !Target(s0, k)
  {
    assert forall k | Target(s0, k) :: k in Targets(s0);
  }

  lemma NotYet(done: set<Key>, channel: string, ids: seq<string>, i: nat)
    requires i < |ids| && Distinct(ids) && Key(channel, ids[i]) !in done
    ensures Key(channel, ids[i]) !in done + Keys(channel, ids[..i])
  {
  }

  lemma StampOne(yaml: Yaml, s0: Store, s: Store, done: set<Key>, moves: seq<Key>, k: Key)
    requires Scanned(yaml, s0, s, done, moves) && Target(s0, k) && k !in done
    ensures s.active[k] == s0.active[k]
    ensures Scanned(yaml, s0, s.(active := s.active[k := Stamped(yaml, s.active[k])]), done + {k}, moves + [k])
  {
    hide Stamped;
    KeySetSnoc(moves, k);
    assert k !in KeySet(moves);
    assert forall i | 0 <= i < |moves| :: moves[i] in KeySet(moves);
    assert s.active[k := Stamped(yaml, s.active[k])] == StampedOf(yaml, s0, done + {k});
  }

  lemma SkipOne(yaml: Yaml, s0: Store, s: Store, done: set<Key>, moves: seq<Key>, k: Key)
    requires Scanned(yaml, s0, s, done, moves) && k in s0.active && k !in done && s.active[k].meta.None?
    ensures !Target(s0, k) && Scanned(yaml, s0, s, done + {k}, moves)
  {
    hide Stamped;
    assert s.active[k] == s0.active[k];
    assert StampedOf(yaml, s0, done + {k}) == StampedOf(yaml, s0, done);
  }

  lemma Unstamped(yaml: Yaml, s: Store)
    ensures Scanned(yaml, s, s, {}, [])
  {
    assert StampedOf(yaml, s, {}) == s.active;
  }

  lemma ListedOnce(s0: Store, channels: seq<string>, cards: map<string, seq<string>>, done: set<Key>, i: nat)
    requires Distinct(channels) && i < |channels|
    requires forall c | c in channels :: c in cards && Distinct(cards[c])
    requires forall k :: k in s0.active <==> k.channel in channels && k.id in cards[k.channel]
    requires forall k | k in done :: exists j | 0 <= j < i :: channels[j] == k.channel
    ensures var ids := cards[channels[i]];
      Distinct(ids) && forall j | 0 <= j < |ids| :: Key(channels[i], ids[j]) in s0.active && Key(channels[i], ids[j]) !in done
  {
    var ids := cards[channels[i]];
    forall j | 0 <= j < |ids| ensures Key(channels[i], ids[j]) in s0.active && Key(channels[i], ids[j]) !in done {
      assert ids[j] in ids;
    }
  }

  lemma ChannelDone(s0: Store, channel: string, ids: seq<string>, was: set<Key>)
    ensures forall k: Key | k.channel == channel && k.id in ids :: k in was + Keys(channel, ids)
    ensures forall k | k in Keys(channel, ids) :: k.channel == channel && k.id in ids
  {
    forall k: Key | k.channel == channel && k.id in ids ensures k in Keys(channel, ids) {
      var j :| 0 <= j < |ids| && ids[j] == k.id;
      assert k == Key(channel, ids[j]);
    }
  }

  lemma MovesAreTargets(yaml: Yaml, s0: Store, s: Store, done: set<Key>, moves: seq<Key>)
    requires Scanned(yaml, s0, s, done, moves)
    requires forall k | Target(s0, k) :: k in done
    ensures KeySet(moves) == Targets(s0) && |moves| == |Targets(s0)|
    ensures s == s0.(active := StampedOf(yaml, s0, Targets(s0))) && Distinct(moves)
    ensures forall i | 0 <= i < |moves| :: moves[i] in s.active && Target(s0, moves[i])
  {
    hide Stamped;
    assert KeySet(moves) == Targets(s0);
    DistinctCount(moves);
    assert StampedOf(yaml, s0, done) == StampedOf(yaml, s0, Targets(s0));
    assert forall i | 0 <= i < |moves| :: moves[i] in KeySet(moves);
  }

  lemma {:induction false} DistinctCount(ks: seq<Key>)
    requires Distinct(ks)
    ensures |KeySet(ks)| == |ks|
  {
    if ks != [] {
      var init, last := ks[..|ks| - 1], ks[|ks| - 1];
      DistinctCount(init);
      assert ks == init + [last];
      KeySetSnoc(init, last);
      assert last !in KeySet(init);
    }
  }

  lemma NothingToDo(yaml: Yaml, s0: Store, s: Store)
    requires Targets(s0) == {} && s == s0.(active := StampedOf(yaml, s0, {}))
    ensures s == Reconciled(yaml, s0)
  {
    var r := Reconciled(yaml, s0);
    assert forall k :: Target(s0, k) ==> k in Targets(s0);
    assert s.active == r.active;
    assert s.archived == r.archived;
  }

  lemma Finished(yaml: Yaml, s0: Store, done: set<Key>, moves: seq<Key>)
    requires KeySet(moves) == Targets(s0)
    ensures var a := StampedOf(yaml, s0, Targets(s0));
      s0.(active := a - KeySet(moves),
          archived := map k | k in s0.archived.Keys + KeySet(moves) ::
            if k in KeySet(moves) then (if k in a then a[k] else Card(None, map[])) else s0.archived[k])
      == Reconciled(yaml, s0)
  {
    hide Stamped, KeySet;
    var a, r := StampedOf(yaml, s0, Targets(s0)), Reconciled(yaml, s0);
    assert forall k | k in Targets(s0) :: k in a && a[k] == Stamped(yaml, s0.active[k]);
    assert a - KeySet(moves) == r.active;
  }

  // ----- main results

  /** A pass loses nothing: the card directories are the same, each with its files and, apart from the
      stamp, its metadata; cards outside orphan channels stay as and where they were; no orphan channel
      keeps an active card with metadata; and a second pass has nothing to do. */
  lemma ReconcileConserves(yaml: Yaml, s: Store, k: Key)
    requires yaml.RoundTrips()
    requires forall j | j in s.active && j.channel !in s.activeMeta && j.channel in s.archivedMeta && s.active[j].meta.Some? ::
      j !in s.archived && yaml.parse(s.active[j].meta.value).Some?
    ensures var t := Reconciled(yaml, s);
      var orphan := k.channel !in s.activeMeta && k.channel in s.archivedMeta && k in s.active && s.active[k].meta.Some?;
      && t.activeMeta == s.activeMeta && t.archivedMeta == s.archivedMeta
      && t.active.Keys + t.archived.Keys == s.active.Keys + s.archived.Keys
      && (k.channel !in s.activeMeta && k.channel in s.archivedMeta && k in t.active ==> t.active[k].meta.None?)
      && (orphan ==>
            && k !in t.active && k in t.archived && t.archived[k].files == s.active[k].files
            && t.archived[k].meta.Some? && yaml.parse(t.archived[k].meta.value).Some?
            && yaml.parse(t.archived[k].meta.value).value
               == yaml.parse(s.active[k].meta.value).value.(archivedVia := Some("channel")))
      && (k in s.active && !orphan ==> k in t.active && t.active[k] == s.active[k])
      && (k in s.archived ==> k in t.archived && t.archived[k] == s.archived[k])
      && Reconciled(yaml, t) == t
  {
    assert forall j :: Target(s, j) <==> j in Targets(s);
    assert k in s.active ==> (Target(s, k) <==> Orphan(s, k.channel) && s.active[k].meta.Some?);
    SecondPass(yaml, s);
  }

  /** After a pass there is nothing to migrate. */
  lemma SecondPass(yaml: Yaml, s: Store)
    ensures var t := Reconciled(yaml, s); Reconciled(yaml, t) == t && forall k :: !Target(t, k)
  {
    var t := Reconciled(yaml, s);
    assert forall j :: !Target(t, j);
    assert Targets(t) == {};
    assert StampedOf(yaml, t, {}) == t.active;
    hide Reconciled;
    NothingToDo(yaml, t, t);
  }
}
