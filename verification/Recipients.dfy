/** Who is told about a channel message: the owner, the mentioned, and everyone on the chain of replies
    above it, which in corrupted files may be cyclic or broken. */
module Recipients {
  import opened Results
  import opened Lexicographic

  datatype Message = Message(line: nat, pointTo: nat, author: string, mentions: seq<string>)

  // ----- the ordered set

  /** Sorted, and so without duplicates. */
  predicate Ascending(s: seq<string>) {
    forall i, j | 0 <= i < j < |s| :: Less(s[i], s[j])
  }

  function Members(s: seq<string>): set<string> {
    set i | 0 <= i < |s| :: s[i]
  }

  /** `BTreeSet::insert`. */
  function Insert(s: seq<string>, x: string): seq<string> {
    if s == [] || Less(x, s[0]) then [x] + s
    else if s[0] == x then s
    else [s[0]] + Insert(s[1..], x)
  }

  lemma {:induction false} InsertMembers(s: seq<string>, x: string)
    ensures Members(Insert(s, x)) == Members(s) + {x}
  {
    if s != [] && !Less(x, s[0]) && s[0] != x {
      InsertMembers(s[1..], x);
      assert s == [s[0]] + s[1..];
      MembersConcat([s[0]], s[1..]);
      MembersConcat([s[0]], Insert(s[1..], x));
    } else if s == [] || Less(x, s[0]) {
      MembersConcat([x], s);
      assert Members([x]) == {x} by {
        assert [x][0] == x;
      }
    } else {
      assert x == s[0];
    }
  }

  lemma MembersConcat(a: seq<string>, b: seq<string>)
    ensures Members(a + b) == Members(a) + Members(b)
  {
    var g := a + b;
    forall x ensures x in Members(g) <==> x in Members(a) || x in Members(b) {
      if x in Members(a) {
        var i :| 0 <= i < |a| && a[i] == x;
        assert g[i] == x;
      }
      if x in Members(b) {
        var i :| 0 <= i < |b| && b[i] == x;
        assert g[|a| + i] == x;
      }
    }
  }

  lemma {:induction false} InsertAscending(s: seq<string>, x: string)
    requires Ascending(s)
    ensures Ascending(Insert(s, x))
  {
    var r := Insert(s, x);
    if s == [] {
    } else if Less(x, s[0]) {
      forall i, j | 0 <= i < j < |r| ensures Less(r[i], r[j]) {
        if i == 0 && j > 1 {
          LessTransitive(x, s[0], s[j - 1]);
        }
      }
    } else if s[0] != x {
      InsertAscending(s[1..], x);
      InsertMembers(s[1..], x);
      LessTotal(s[0], x);
      var rest := Insert(s[1..], x);
      forall j | 0 <= j < |rest| ensures Less(s[0], rest[j]) {
        assert rest[j] in Members(rest);
        if rest[j] != x {
          var k :| 0 <= k < |s[1..]| && s[1..][k] == rest[j];
          assert s[k + 1] == rest[j];
        }
      }
    }
  }

  // ----- what the recipients are

  function Find(ms: seq<Message>, line: nat): (r: Option<Message>)
    ensures r.Some? ==> r.value.line == line && exists i | 0 <= i < |ms| :: ms[i] == r.value
  {
    if ms == [] then None
    else if ms[0].line == line then Some(ms[0])
    else
      assert forall i | 0 <= i < |ms| - 1 :: ms[1..][i] == ms[i + 1];
      Find(ms[1..], line)
  }

  /** The line reached by following `point_to` n times; zero is the end of every chain. */
  function Hop(ms: seq<Message>, start: nat, n: nat): nat {
    if n == 0 then start
    else
      var c := Hop(ms, start, n - 1);
      if c != 0 && Find(ms, c).Some? then Find(ms, c).value.pointTo else 0
  }

  predicate Adds(ms: seq<Message>, line: nat, x: string) {
    && line != 0
    && Find(ms, line).Some?
    && (x == Find(ms, line).value.author || x in Find(ms, line).value.mentions)
  }

  /** Someone on the chain of messages reachable by `point_to` from a line. */
  ghost predicate OnChain(ms: seq<Message>, start: nat, x: string) {
    exists n: nat :: Adds(ms, Hop(ms, start, n), x)
  }

  /** Owner, own mentions, and author and mentions of every message reachable by `point_to`. */
  ghost predicate IsRecipient(m: Message, owner: string, ms: seq<Message>, x: string) {
    || (owner != "" && x == owner)
    || x in m.mentions
    || OnChain(ms, m.pointTo, x)
  }

  // ----- the walk

  ghost predicate FoundBefore(ms: seq<Message>, start: nat, k: nat, x: string) {
    exists n: nat | n < k :: Adds(ms, Hop(ms, start, n), x)
  }

  ghost predicate Seen(ms: seq<Message>, start: nat, k: nat, line: nat) {
    exists j: nat | j < k :: Hop(ms, start, j) == line
  }

  /** The walk may stop: the chain has ended or come back to a line it has been on. */
  ghost predicate Over(ms: seq<Message>, start: nat, k: nat) {
    var c := Hop(ms, start, k);
    c == 0 || Find(ms, c).None? || Seen(ms, start, k, c)
  }

  function Lines(ms: seq<Message>): set<nat> {
    set i | 0 <= i < |ms| :: ms[i].line
  }

  method InsertAll(s: seq<string>, xs: seq<string>) returns (r: seq<string>)
    requires Ascending(s)
    ensures Ascending(r)
    ensures forall x :: x in Members(r) <==> x in Members(s) || x in xs
  {
    r := s;
    for i := 0 to |xs|
      invariant Ascending(r)
      invariant forall x :: x in Members(r) <==> x in Members(s) || x in xs[..i]
    {
      InsertAscending(r, xs[i]);
      InsertMembers(r, xs[i]);
      hide Ascending, Insert, Members;
      r := Insert(r, xs[i]);
      assert xs[..i + 1] == xs[..i] + [xs[i]];
    }
    assert xs[..|xs|] == xs;
  }

  /** Once the walk is back on a line it has seen, or at the end, nothing new can follow. */
  lemma {:induction false} NothingNew(ms: seq<Message>, start: nat, k: nat, n: nat)
    requires Over(ms, start, k)
    requires n >= k
    ensures var h := Hop(ms, start, n); h == 0 || Find(ms, h).None? || Seen(ms, start, k, h)
  {
    hide Find;
    if n > k {
      NothingNew(ms, start, k, n - 1);
      var h := Hop(ms, start, n - 1);
      if h != 0 && Find(ms, h).Some? {
        var j: nat :| j < k && Hop(ms, start, j) == h;
        assert Hop(ms, start, j + 1) == Hop(ms, start, n);
        if j + 1 == k {
          assert Hop(ms, start, n) == Hop(ms, start, k);
        }
      }
    }
  }

  lemma WalkIsComplete(ms: seq<Message>, start: nat, k: nat, x: string)
    requires Over(ms, start, k)
    ensures FoundBefore(ms, start, k, x) <==> OnChain(ms, start, x)
  {
    hide Find, Hop;
    if n: nat :| Adds(ms, Hop(ms, start, n), x) {
      if n >= k {
        NothingNew(ms, start, k, n);
        var j: nat :| j < k && Hop(ms, start, j) == Hop(ms, start, n);
      }
    }
  }

  lemma FoundLine(ms: seq<Message>, line: nat)
    requires line != 0 && Find(ms, line).Some?
    ensures line in Lines(ms)
    ensures var m := Find(ms, line).value; forall x :: Adds(ms, line, x) <==> x in [m.author] + m.mentions
  {
  }

  lemma WalkStarts(ms: seq<Message>, start: nat)
    ensures Hop(ms, start, 0) == start
    ensures forall c :: !Seen(ms, start, 0, c)
    ensures forall x :: !FoundBefore(ms, start, 0, x)
  {
  }

  lemma WalkAdvances(ms: seq<Message>, start: nat, k: nat)
    requires Hop(ms, start, k) != 0 && Find(ms, Hop(ms, start, k)).Some?
    ensures Hop(ms, start, k + 1) == Find(ms, Hop(ms, start, k)).value.pointTo
    ensures forall c :: Seen(ms, start, k + 1, c) <==> Seen(ms, start, k, c) || c == Hop(ms, start, k)
    ensures forall x :: FoundBefore(ms, start, k + 1, x) <==> FoundBefore(ms, start, k, x) || Adds(ms, Hop(ms, start, k), x)
  {
    hide Find, Adds;
    var h := Hop(ms, start, k);
    assert Hop(ms, start, k + 1) == Find(ms, h).value.pointTo;
    hide Hop;
    forall c ensures Seen(ms, start, k + 1, c) <==> Seen(ms, start, k, c) || c == h {
      if c == h {
        assert k < k + 1 && Hop(ms, start, k) == c;
      }
    }
  }

  /** Rule 2, the parent chain. */
  method WalkParents(ms: seq<Message>, start: nat, known: seq<string>) returns (r: seq<string>)
    requires Ascending(known)
    ensures Ascending(r)
    ensures forall x :: x in Members(r) <==> x in Members(known) || OnChain(ms, start, x)
  {
    hide Members, Ascending, Find, Hop, Lines, Adds, Seen, FoundBefore, OnChain;
    r := known;
    var cursor, visited := start, {};
    ghost var k: nat := 0;
    WalkStarts(ms, start);
    while cursor != 0 && cursor !in visited
      invariant Ascending(r)
      invariant cursor == Hop(ms, start, k)
      invariant visited <= Lines(ms)
      invariant forall c :: c in visited <==> Seen(ms, start, k, c)
      invariant forall x :: x in Members(r) <==> x in Members(known) || FoundBefore(ms, start, k, x)
      decreases |Lines(ms) - visited|
    {
      var ancestor := Find(ms, cursor);
      if ancestor.None? {
        break;
      }
      r := InsertAll(r, [ancestor.value.author] + ancestor.value.mentions);
      WalkAdvances(ms, start, k);
      FoundLine(ms, cursor);
      ghost var unseen := Lines(ms) - visited;
      visited := visited + {cursor};
      assert Lines(ms) - visited == unseen - {cursor};
      cursor := ancestor.value.pointTo;
      k := k + 1;
    }
    forall x ensures FoundBefore(ms, start, k, x) <==> OnChain(ms, start, x) {
      WalkIsComplete(ms, start, k, x);
    }
  }

  /** `compute_recipients`: on any message list the walk ends and returns exactly the recipients, sorted
      and without duplicates. */
  method ComputeRecipients(m: Message, owner: string, ms: seq<Message>) returns (r: seq<string>)
    ensures Ascending(r)
    ensures forall x :: x in Members(r) <==> IsRecipient(m, owner, ms, x)
  {
    hide Members, Ascending, OnChain;
    Nobody();
    r := [];
    if owner != "" {
      r := InsertAll(r, [owner]);
    }
    r := WalkParents(ms, m.pointTo, r);
    r := InsertAll(r, m.mentions);
  }

  lemma Nobody()
    ensures Ascending([]) && Members([]) == {}
  {
  }

  // ----- replies

  lemma {:induction false} HopFrom(ms: seq<Message>, start: nat, n: nat)
    requires start != 0 && Find(ms, start).Some?
    ensures Hop(ms, start, n + 1) == Hop(ms, Find(ms, start).value.pointTo, n)
  {
    hide Find;
    if n > 0 {
      HopFrom(ms, start, n - 1);
    }
  }

  /** A reply reaches its parent's author and everyone its parent reached. */
  lemma ReplyReachesThread(reply: Message, parent: Message, owner: string, ms: seq<Message>, x: string)
    requires reply.pointTo != 0 && Find(ms, reply.pointTo) == Some(parent)
    ensures IsRecipient(reply, owner, ms, parent.author)
    ensures IsRecipient(parent, owner, ms, x) ==> IsRecipient(reply, owner, ms, x)
  {
    hide Find;
    assert Hop(ms, reply.pointTo, 0) == reply.pointTo;
    assert Adds(ms, Hop(ms, reply.pointTo, 0), parent.author);
    if x in parent.mentions {
      assert Adds(ms, Hop(ms, reply.pointTo, 0), x);
    } else if n: nat :| Adds(ms, Hop(ms, parent.pointTo, n), x) {
      HopFrom(ms, reply.pointTo, n);
    }
  }
}
