/** Reading a thread in pages: incremental polling, paging back, and the append that numbers entries. */
module Paging {
  import opened Results
  import opened Text
  import opened Thread
  import opened ThreadFraming

  // ----- one page

  function After(es: seq<Entry>, since: nat): seq<Entry> {
    if es == [] then [] else After(Init(es), since) + if Last(es).line > since then [Last(es)] else []
  }

  function Min(a: nat, b: nat): nat {
    if a < b then a else b
  }

  function Page(es: seq<Entry>, limit: Option<nat>, since: Option<nat>): seq<Entry> {
    match (since, limit)
    case (None, None) => es
    case (None, Some(n)) => es[|es| - Min(n, |es|)..]
    case (Some(l), None) => After(es, l)
    case (Some(l), Some(n)) => After(es, l)[..Min(n, |After(es, l)|)]
  }

  /** The positions of the entries numbered above `since`: all of them, in order. */
  function PositionsAfter(es: seq<Entry>, since: nat): (r: seq<nat>)
    ensures forall i | 0 <= i < |es| :: i in r <==> es[i].line > since
    ensures forall k | 0 <= k < |r| :: r[k] < |es|
    ensures forall k, l | 0 <= k < l < |r| :: r[k] < r[l]
  {
    if es == [] then [] else PositionsAfter(Init(es), since) + if Last(es).line > since then [|es| - 1] else []
  }

  lemma {:induction false} AfterExactly(es: seq<Entry>, since: nat)
    ensures |After(es, since)| == |PositionsAfter(es, since)|
    ensures forall k | 0 <= k < |After(es, since)| :: After(es, since)[k] == es[PositionsAfter(es, since)[k]]
  {
    if es != [] {
      AfterExactly(Init(es), since);
    }
  }

  /** What a page is: everything, the newest entries of a thread that is opened with a limit, or the
      earliest entries above a line. */
  lemma PageExactly(es: seq<Entry>, limit: Option<nat>, since: Option<nat>)
    ensures limit.None? && since.None? ==> Page(es, limit, since) == es
    ensures limit.Some? && since.None? ==>
      exists older ::
        && older + Page(es, limit, since) == es
        && |Page(es, limit, since)| <= limit.value
        && (older != [] ==> |Page(es, limit, since)| == limit.value)
    ensures since.Some? ==>
      var at := PositionsAfter(es, since.value);
      && |Page(es, limit, since)| == (if limit.Some? && limit.value < |at| then limit.value else |at|)
      && forall k | 0 <= k < |Page(es, limit, since)| :: Page(es, limit, since)[k] == es[at[k]]
  {
    if since.Some? {
      AfterExactly(es, since.value);
    } else if limit.Some? {
      assert es[..|es| - Min(limit.value, |es|)] + Page(es, limit, since) == es;
    }
  }

  /** `read_thread_entries`: retain, then truncate or drain. */
  method ReadThreadEntries(es: seq<Entry>, limit: Option<nat>, since: Option<nat>) returns (r: seq<Entry>)
    ensures r == Page(es, limit, since)
  {
    r := es;
    if since.Some? {
      r := Retain(es, since.value);
    }
    if limit.Some? {
      if since.Some? {
        r := r[..Min(limit.value, |r|)];
      } else {
        var drop := if |r| < limit.value then 0 else |r| - limit.value;
        r := r[drop..];
      }
    }
  }

  method Retain(es: seq<Entry>, since: nat) returns (r: seq<Entry>)
    ensures r == After(es, since)
  {
    r := [];
    assert es[..0] == [];
    for i := 0 to |es|
      invariant r == After(es[..i], since)
    {
      assert Init(es[..i + 1]) == es[..i];
      if es[i].line > since {
        r := r + [es[i]];
      }
    }
    assert es[..|es|] == es;
  }

  /** `bounded_entries`: one filter that lets everything through without a `since`. The two pagers
      agree on every input. */
  method BoundedEntries(es: seq<Entry>, limit: Option<nat>, since: Option<nat>) returns (r: seq<Entry>)
    ensures r == Page(es, limit, since)
  {
    r := [];
    assert es[..0] == [];
    for i := 0 to |es|
      invariant r == if since.None? then es[..i] else After(es[..i], since.value)
    {
      assert Init(es[..i + 1]) == es[..i];
      if since.None? || es[i].line > since.value {
        r := r + [es[i]];
      }
    }
    assert es[..|es|] == es;
    if limit.Some? {
      var n := Min(limit.value, |r|);
      r := if since.Some? then r[..n] else r[|r| - n..];
    }
  }

  // ----- polling

  predicate Numbered(es: seq<Entry>) {
    && (forall i | 0 <= i < |es| :: es[i].line > 0)
    && (forall i, j | 0 <= i < j < |es| :: es[i].line < es[j].line)
  }

  /** The last line a reader has seen; zero before the first. */
  function LastLine(es: seq<Entry>): nat {
    if es == [] then 0 else Last(es).line
  }

  lemma {:induction false} AfterPrefix(es: seq<Entry>, k: nat)
    requires Numbered(es) && k <= |es|
    ensures After(es, LastLine(es[..k])) == es[k..]
  {
    if es != [] {
      if k < |es| {
        AfterPrefix(Init(es), k);
        assert Init(es)[..k] == es[..k];
        assert es[k..] == Init(es)[k..] + [Last(es)];
      } else {
        AfterNone(es, Last(es).line);
        assert es[..k] == es;
      }
    }
  }

  lemma {:induction false} AfterNone(es: seq<Entry>, since: nat)
    requires forall i | 0 <= i < |es| :: es[i].line <= since
    ensures After(es, since) == []
  {
    if es != [] {
      AfterNone(Init(es), since);
    }
  }

  datatype Event = Appended(entry: Entry) | Polled(limit: nat)

  datatype Reading = Reading(thread: seq<Entry>, seen: seq<Entry>)

  predicate Possible(s: Reading, e: Event) {
    if e.Appended? then e.entry.line > LastLine(s.thread) else e.limit >= 1
  }

  function Next(s: Reading, e: Event): Reading {
    match e
    case Appended(entry) => s.(thread := s.thread + [entry])
    case Polled(limit) => s.(seen := s.seen + Page(s.thread, Some(limit), Some(LastLine(s.seen))))
  }

  function Run(start: seq<Entry>, es: seq<Event>): Reading {
    if es == [] then Reading(start, []) else Next(Run(start, Init(es)), Last(es))
  }

  predicate Orderly(start: seq<Entry>, es: seq<Event>) {
    es != [] ==> Orderly(start, Init(es)) && Possible(Run(start, Init(es)), Last(es))
  }

  /** A poll hands over the next entries, as many as there are up to the limit. */
  lemma PollAdvances(s: Reading, limit: nat)
    requires Numbered(s.thread) && s.seen <= s.thread
    ensures var n := |s.seen| + Min(limit, |s.thread| - |s.seen|);
      Next(s, Polled(limit)).seen == s.thread[..n]
  {
    var k := |s.seen|;
    AfterPrefix(s.thread, k);
    assert s.seen == s.thread[..k];
    var n := Min(limit, |s.thread| - k);
    assert s.thread[k..][..n] == s.thread[k..k + n];
    assert s.thread[..k] + s.thread[k..k + n] == s.thread[..k + n];
    hide After;
  }

  /** However polls and appends interleave, the reader holds a prefix of the thread: no gap, no repeat. */
  lemma {:induction false} PollingIsLossless(start: seq<Entry>, es: seq<Event>)
    requires Numbered(start) && Orderly(start, es)
    ensures var s := Run(start, es); Numbered(s.thread) && s.seen <= s.thread && start <= s.thread
  {
    hide Numbered, Next, Possible;
    if es != [] {
      PollingIsLossless(start, Init(es));
      NextIsLossless(Run(start, Init(es)), Last(es));
    }
  }

  lemma NextIsLossless(s: Reading, e: Event)
    requires Numbered(s.thread) && s.seen <= s.thread && Possible(s, e)
    ensures var t := Next(s, e); Numbered(t.thread) && t.seen <= t.thread && s.thread <= t.thread
  {
    hide Page;
    if e.Polled? {
      PollAdvances(s, e.limit);
    } else {
      var t := s.thread + [e.entry];
      assert forall i | 0 <= i < |s.thread| :: t[i] == s.thread[i] && t[i].line <= LastLine(s.thread);
    }
  }

  // ----- paging back

  predicate Contiguous(es: seq<Entry>) {
    forall i | 0 <= i < |es| :: es[i].line == i + 1
  }

  lemma ContiguousLines(es: seq<Entry>, k: nat)
    requires Contiguous(es) && k <= |es|
    ensures Numbered(es) && LastLine(es[..k]) == k
  {
  }

  /** On contiguous numbering, `since = oldest - limit - 1` returns exactly the `limit` entries before
      the oldest one on screen. */
  lemma PagingBack(es: seq<Entry>, oldest: nat, limit: nat)
    requires Contiguous(es) && 1 <= oldest <= |es| && limit < oldest
    ensures Page(es, Some(limit), Some(oldest - limit - 1)) == es[oldest - limit - 1..oldest - 1]
  {
    hide After, Numbered, Contiguous;
    var k: nat := oldest - limit - 1;
    ContiguousLines(es, k);
    AfterPrefix(es, k);
    assert es[k..][..limit] == es[k..oldest - 1];
  }

  // ----- appending

  /** `append_message_to_thread`: the new line number and the new file content. */
  function Append(file: string, author: string, body: string, replyTo: Option<nat>, now: string): Result<(nat, string), ParseError> {
    var es :- Parse(file);
    var line := LastLine(es) + 1;
    Ok((line, file + Format(Message(line, if replyTo.Some? then replyTo.value else 0, author, now, body))))
  }

  /** An append to a terminated, contiguously numbered file adds one entry with the next number, and
      the file stays that way, so paging over files built by appends loses nothing. */
  lemma AppendNumbers(file: string, author: string, body: string, replyTo: Option<nat>, now: string)
    requires Parse(file).Ok? && Terminated(file) && Contiguous(Parse(file).value)
    requires ValidAuthor(author) && IsTimestamp(now) && HasFirstLine(body)
    requires |Parse(file).value| + 1 < U64 && (replyTo.Some? ==> replyTo.value < U64)
    ensures var es := Parse(file).value;
      var r := Append(file, author, body, replyTo, now);
      && r.Ok? && r.value.0 == |es| + 1 && Terminated(r.value.1)
      && Parse(r.value.1) == Ok(es + [Message(|es| + 1, if replyTo.Some? then replyTo.value else 0, author, now, NormalBody(body))])
      && Contiguous(Parse(r.value.1).value)
  {
    hide Parse, Format, Terminated, HasFirstLine, NormalBody, ValidAuthor, IsTimestamp;
    var es := Parse(file).value;
    var e := Message(|es| + 1, if replyTo.Some? then replyTo.value else 0, author, now, body);
    AppendFrames(file, e);
    FormatTerminated(e);
    TerminatedConcat(file, Format(e));
  }
}
