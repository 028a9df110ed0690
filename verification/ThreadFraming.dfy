/** What appending to a thread file means to the next reader. The main results are
    `AppendFrames` (exactly when a formatted entry comes back as one new entry), `FileFrames`
    (whole files) and the normal form a body settles into. */
module ThreadFraming {
  import opened Results
  import opened Text
  import opened Thread

  // ----- the matcher on formatted text

  lemma FieldExact(open: string, value: string, rest: string, p: char -> bool, least: nat)
    requires forall i | 0 <= i < |value| :: p(value[i])
    requires |value| >= least && !p(']')
    ensures Field(FieldText(open, value, rest), open, p, least) == Some((value, rest))
  {
    var s := FieldText(open, value, rest);
    var r := s[|open|..];
    assert r == value + "]" + rest;
    var n := Span(r, p);
    assert r[|value|] == ']';
    assert forall i | 0 <= i < |value| :: r[i] == value[i];
    assert n == |value|;
    assert r[..n] == value && r[n + 1..] == rest;
  }

  lemma FieldExtends(s: string, t: string, open: string, p: char -> bool, least: nat)
    requires Field(s, open, p, least).Some? && !p(']')
    ensures Field(s + t, open, p, least)
         == Some((Field(s, open, p, least).value.0, Field(s, open, p, least).value.1 + t))
  {
    var (value, rest) := Field(s, open, p, least).value;
    var n := Span(s[|open|..], p);
    assert s == FieldText(open, value, rest) by {
      var r := s[|open|..];
      assert r == r[..n] + "]" + r[n + 1..];
      assert s == open + r;
    }
    assert s + t == FieldText(open, value, rest + t);
    FieldExact(open, value, rest + t, p, least);
  }

  lemma TimestampExtends(s: string, t: string)
    requires Timestamp(s).Some?
    ensures Timestamp(s + t) == Some((Timestamp(s).value.0, Timestamp(s).value.1 + t))
  {
    assert (s + t)[1..17] == s[1..17] && (s + t)[18..] == s[18..] + t;
  }

  lemma EventGroupExtends(s: string, t: string)
    requires EventGroup(s).Some? && s != ""
    ensures EventGroup(s + t) == Some((EventGroup(s).value.0, EventGroup(s).value.1 + t))
  {
    if s[0] == '[' {
      FieldExtends(s, t, "[E:", IsEventChar, 1);
    }
  }

  /** A line that opens an entry still opens one, with a longer text, when text is glued to it. */
  lemma HeaderExtends(l: string, t: string)
    requires MatchHeader(l).Some?
    ensures MatchHeader(l + t) == Some(MatchHeader(l).value.(text := MatchHeader(l).value.text + t))
  {
    hide Field, Timestamp, EventGroup;
    var r1 := Field(l, "[L", IsDigit, 6).value.1;
    var r2 := Field(r1, "[P", IsDigit, 6).value.1;
    var r3 := Field(r2, "[@", IsHandlerChar, 1).value.1;
    var r4 := Timestamp(r3).value.1;
    var r5 := EventGroup(r4).value.1;
    FieldExtends(l, t, "[L", IsDigit, 6);
    FieldExtends(r1, t, "[P", IsDigit, 6);
    FieldExtends(r2, t, "[@", IsHandlerChar, 1);
    TimestampExtends(r3, t);
    EventGroupOfNothing();
    EventGroupExtends(r4, t);
    assert (r5 + t)[1..] == r5[1..] + t;
  }

  lemma EventGroupOfNothing()
    ensures EventGroup("") == Some((None, ""))
  {
  }

  lemma HeaderLooksLikeStart(l: string)
    ensures MatchHeader(l).Some? ==> LooksLikeStart(l)
  {
  }

  // ----- what may be written

  predicate Addressed(e: Entry) {
    e.line < U64 && e.pointTo < U64 && ValidAuthor(e.author) && IsTimestamp(e.timestamp)
  }

  /** The first body line keeps a character once the carriage returns at its end are gone. */
  predicate HasFirstLine(body: string) {
    Chomp2(BodyLines(body)[0]) != ""
  }

  /** Compact JSON: one non-empty line without a carriage return at its end. */
  predicate IsJsonLine(meta: string) {
    meta != "" && NoNewline(meta) && !EndsCr(meta)
  }

  /** The arguments the formatter's callers control are well formed. */
  predicate Formattable(e: Entry) {
    Addressed(e) && (e.Event? ==> IsEventType(e.eventType) && IsJsonLine(e.meta))
  }

  predicate Visible(e: Entry) {
    e.Message? ==> HasFirstLine(e.body)
  }

  // ----- head lines

  lemma HeadSplits(line: nat, pointTo: nat, author: string, timestamp: string, rest: string)
    ensures HeadText(line, pointTo, author, timestamp, rest)
         == HeadText(line, pointTo, author, timestamp, "") + rest
  {
    var w := Width(line);
    var t0, t1 := FieldText("[", timestamp, ""), FieldText("[", timestamp, rest);
    assert t1 == t0 + rest;
    var a0, a1 := FieldText("[@", author, t0), FieldText("[@", author, t1);
    assert a1 == a0 + rest;
    var p0, p1 := FieldText("[P", Pad(pointTo, w), a0), FieldText("[P", Pad(pointTo, w), a1);
    assert p1 == p0 + rest;
  }

  /** The numbers, the author and the timestamp of a written head come back; what follows them
      decides whether the line opens an entry. */
  lemma HeadMatches(line: nat, pointTo: nat, author: string, timestamp: string, rest: string)
    requires ValidAuthor(author) && IsTimestamp(timestamp)
    ensures MatchHeader(HeadText(line, pointTo, author, timestamp, rest))
         == var w := Width(line);
            var g := EventGroup(rest);
            if g.Some? && |g.value.1| >= 2 && g.value.1[0] == ' '
            then Some(Header(Pad(line, w), Pad(pointTo, w), author, timestamp, g.value.0, g.value.1[1..]))
            else None
  {
    hide Field, Timestamp, EventGroup, FieldText;
    var w := Width(line);
    ValidAuthorChars(author);
    var s4 := FieldText("[", timestamp, rest);
    TimestampExact(timestamp, rest);
    var s3 := FieldText("[@", author, s4);
    FieldExact("[@", author, s4, IsHandlerChar, 1);
    var s2 := FieldText("[P", Pad(pointTo, w), s3);
    FieldExact("[P", Pad(pointTo, w), s3, IsDigit, 6);
    FieldExact("[L", Pad(line, w), s2, IsDigit, 6);
  }

  lemma TimestampExact(timestamp: string, rest: string)
    requires IsTimestamp(timestamp)
    ensures Timestamp(FieldText("[", timestamp, rest)) == Some((timestamp, rest))
  {
    var s := FieldText("[", timestamp, rest);
    assert s[1..17] == timestamp && s[18..] == rest;
  }

  function HeadOf(e: Entry, text: string): Header {
    var w := Width(e.line);
    if e.Message? then Header(Pad(e.line, w), Pad(e.pointTo, w), e.author, e.timestamp, None, text)
    else Header(Pad(e.line, w), Pad(0, w), e.author, e.timestamp, Some(e.eventType), text)
  }

  lemma OpenHead(e: Entry, text: string, fileLine: nat)
    requires Formattable(e)
    ensures Open(HeadOf(e, text), fileLine)
         == Ok(if e.Message? then e.(body := text) else e.(pointTo := 0, meta := text))
  {
    var w := Width(e.line);
    PadRoundTrip(e.line, w);
    PadRoundTrip(e.pointTo, w);
    PadRoundTrip(0, w);
  }

  // ----- the lines of a formatted entry

  lemma EndsCrAfter(a: string, b: string)
    requires b != ""
    ensures EndsCr(a + b) == EndsCr(b)
  {
    assert (a + b)[|a + b| - 1] == b[|b| - 1];
  }

  lemma ChompAfter(a: string, b: string)
    requires b != "" || !EndsCr(a)
    ensures ChompCr(a + b) == a + ChompCr(b)
  {
    if b == "" {
      assert a + b == a;
    } else {
      assert (a + b)[|a + b| - 1] == b[|b| - 1];
    }
  }

  lemma Chomp2After(a: string, b: string)
    requires a != "" && !EndsCr(a)
    ensures Chomp2(a + b) == a + Chomp2(b)
  {
    ChompAfter(a, b);
    ChompAfter(a, ChompCr(b));
  }

  lemma ChompedStart(l: string)
    requires LooksLikeStart(Chomp2(l))
    ensures LooksLikeStart(l)
  {
    hide Field;
    var t := l[|Chomp2(l)|..];
    assert l == Chomp2(l) + t;
    FieldExtends(Chomp2(l), t, "[L", IsDigit, 6);
  }

  lemma StartChomped(l: string)
    requires LooksLikeStart(l)
    ensures "[L" <= Chomp2(l)
  {
    assert l[2..] != [];
    hide Field, LooksLikeStart;
    assert l == l[..2] + l[2..];
    Chomp2After(l[..2], l[2..]);
  }

  /** A line that starts neither with `[L` nor with a space-escaped `[L` opens nothing. */
  lemma SpaceOpensNothing(l: string)
    ensures MatchHeader(" " + l).None?
  {
    hide EventGroup, Timestamp;
    assert (" " + l)[0] == ' ';
    assert !("[L" <= " " + l);
  }

  /** Taking carriage returns off the end neither makes nor breaks an escape. */
  lemma EscapeChomped(l: string)
    ensures MatchHeader(Chomp2(Escape(l))).None?
    ensures Unescape(Chomp2(Escape(l))) == Unescape(Chomp2(l))
  {
    hide MatchHeader, LooksLikeStart, Chomp2;
    HeaderLooksLikeStart(Chomp2(l));
    SpaceOpensNothing(Chomp2(l));
    Chomp2After(" ", l);
    if LooksLikeStart(l) {
      StartChomped(l);
      var c := Chomp2(l);
      assert (" " + c)[1..] == c;
      assert " [L" <= " " + c && !(" [L" <= c);
    } else if LooksLikeStart(Chomp2(l)) {
      ChompedStart(l);
    }
  }

  lemma EscapeKeepsNewlineFree(l: string)
    requires NoNewline(l)
    ensures NoNewline(Escape(l))
  {
  }

  lemma LinesNewlineFree(body: string)
    ensures NewlineFree(BodyLines(body))
  {
    var ps := Split(body);
    forall i | 0 <= i < |Init(ps)|
      ensures NoNewline(ChompEach(Init(ps))[i])
    {
      assert NoNewline(ps[i]);
    }
    assert NoNewline(Last(ps));
  }

  lemma FieldNewlineFree(open: string, value: string, rest: string)
    requires NoNewline(open) && NoNewline(value) && NoNewline(rest)
    ensures NoNewline(FieldText(open, value, rest))
  {
  }

  lemma HeadNewlineFree(line: nat, pointTo: nat, author: string, timestamp: string, rest: string)
    requires ValidAuthor(author) && IsTimestamp(timestamp) && NoNewline(rest)
    ensures NoNewline(HeadText(line, pointTo, author, timestamp, rest))
  {
    hide FieldText;
    ValidAuthorChars(author);
    var t := FieldText("[", timestamp, rest);
    FieldNewlineFree("[", timestamp, rest);
    var a := FieldText("[@", author, t);
    FieldNewlineFree("[@", author, t);
    var p := FieldText("[P", Pad(pointTo, Width(line)), a);
    FieldNewlineFree("[P", Pad(pointTo, Width(line)), a);
    FieldNewlineFree("[L", Pad(line, Width(line)), p);
  }

  lemma EntryLinesNewlineFree(e: Entry)
    requires Formattable(e)
    ensures NewlineFree(EntryLines(e))
  {
    if e.Message? {
      LinesNewlineFree(e.body);
      var ls := BodyLines(e.body);
      assert NoNewline(ls[0]);
      HeadNewlineFree(e.line, e.pointTo, e.author, e.timestamp, " " + ls[0]);
      forall i | 0 <= i < |ls| - 1
        ensures NoNewline(EscapeEach(ls[1..])[i])
      {
        EscapeKeepsNewlineFree(ls[i + 1]);
      }
    } else {
      FieldNewlineFree("[E:", e.eventType, " " + e.meta);
      HeadNewlineFree(e.line, 0, e.author, e.timestamp, FieldText("[E:", e.eventType, " " + e.meta));
    }
  }

  // ----- continuation lines

  predicate Continues(ls: seq<string>) {
    forall i | 0 <= i < |ls| :: MatchHeader(ls[i]).None?
  }

  function UnescapeEach(ls: seq<string>): (r: seq<string>)
    ensures |r| == |ls|
  {
    seq(|ls|, i requires 0 <= i < |ls| => Unescape(ls[i]))
  }

  lemma JoinFuse(a: string, b: string, r: seq<string>)
    ensures Join([a + "\n" + b] + r) == Join([a] + ([b] + r))
  {
    assert ([a] + ([b] + r))[1..] == [b] + r;
    assert ([b] + r)[1..] == r;
    assert ([a + "\n" + b] + r)[1..] == r;
    if r != [] {
      assert a + "\n" + b + "\n" + Join(r) == a + "\n" + (b + "\n" + Join(r));
    }
  }

  /** Lines that open nothing all land in the text of the last entry. */
  lemma {:induction false} ContinuationsExtend(ls: seq<string>, seen: nat, acc: seq<Entry>)
    requires acc != [] && Continues(ls)
    ensures ParseLines(ls, seen, acc)
         == Ok(Init(acc) + [Last(acc).WithText(Join([Last(acc).Text()] + UnescapeEach(ls)))])
  {
    hide MatchHeader, Unescape;
    var e := Last(acc);
    if ls == [] {
      assert [e.Text()] + UnescapeEach(ls) == [e.Text()];
      assert acc == Init(acc) + [e];
    } else {
      var acc' := Extend(acc, ls[0]);
      ContinuationsExtend(ls[1..], seen + 1, acc');
      assert UnescapeEach(ls) == [Unescape(ls[0])] + UnescapeEach(ls[1..]);
      JoinFuse(e.Text(), Unescape(ls[0]), UnescapeEach(ls[1..]));
      assert Init(acc') == Init(acc);
    }
  }

  lemma {:induction false} ParseSplits(a: seq<string>, b: seq<string>, seen: nat, acc: seq<Entry>)
    ensures ParseLines(a + b, seen, acc)
         == var r := ParseLines(a, seen, acc);
            if r.Ok? then ParseLines(b, seen + |a|, r.value) else r
  {
    hide Step;
    if a == [] {
      assert a + b == b;
    } else {
      assert (a + b)[1..] == a[1..] + b;
      var s := Step(acc, a[0], seen + 1);
      if s.Ok? {
        ParseSplits(a[1..], b, seen + 1, s.value);
      }
    }
  }

  // ----- normal form

  function NormalLines(body: string): (ls: seq<string>)
    ensures |ls| >= 1
  {
    var ls := BodyLines(body);
    [Chomp2(ls[0])] + UnescapeEach(Chomp2Each(ls[1..]))
  }

  /** What a reader sees of a written body. */
  function NormalBody(body: string): string {
    Join(NormalLines(body))
  }

  function Normal(e: Entry): Entry {
    match e
    case Message(_, _, _, _, body) => e.(body := NormalBody(body))
    case Event(line, _, author, timestamp, eventType, meta) => Event(line, 0, author, timestamp, eventType, meta)
  }

  lemma EscapedContinue(ls: seq<string>)
    ensures Continues(Chomp2Each(EscapeEach(ls)))
    ensures UnescapeEach(Chomp2Each(EscapeEach(ls))) == UnescapeEach(Chomp2Each(ls))
  {
    hide MatchHeader, Escape, Unescape, Chomp2;
    forall i | 0 <= i < |ls|
      ensures MatchHeader(Chomp2(Escape(ls[i]))).None?
      ensures Unescape(Chomp2(Escape(ls[i]))) == Unescape(Chomp2(ls[i]))
    {
      EscapeChomped(ls[i]);
    }
  }

  lemma Chomp2EachTail(h: string, ls: seq<string>)
    ensures Chomp2Each([h] + ls)[0] == Chomp2(h) && Chomp2Each([h] + ls)[1..] == Chomp2Each(ls)
  {
  }

  /** The file lines of an entry: its head line, then lines that open nothing. */
  lemma EntryFileLines(e: Entry)
    requires Formattable(e)
    ensures FileLines(Format(e)) == Chomp2Each(EntryLines(e)) && Terminated(Format(e))
    ensures Continues(Chomp2Each(EntryLines(e))[1..])
    ensures Chomp2Each(EntryLines(e))[0] == Chomp2(EntryLines(e)[0])
    ensures UnescapeEach(Chomp2Each(EntryLines(e))[1..])
         == if e.Message? then UnescapeEach(Chomp2Each(BodyLines(e.body)[1..])) else []
  {
    hide MatchHeader, HeadText, Escape, Unescape, Chomp2, BodyLines, FileLines, Unlines, Terminated, Chomp2Each, EscapeEach;
    EntryLinesNewlineFree(e);
    FileLinesUnlines(EntryLines(e));
    if e.Message? {
      var ls := BodyLines(e.body);
      EscapedContinue(ls[1..]);
      Chomp2EachTail(HeadText(e.line, e.pointTo, e.author, e.timestamp, " " + ls[0]), EscapeEach(ls[1..]));
    } else {
      Chomp2EachTail(EventLine(e), []);
      assert [EventLine(e)] + [] == [EventLine(e)];
    }
  }

  lemma PlainGroup(t: string)
    ensures EventGroup(" " + t) == Some((None, " " + t))
    ensures (" " + t)[1..] == t
  {
  }

  lemma JsonGroup(eventType: string, meta: string)
    requires IsEventType(eventType)
    ensures EventGroup(FieldText("[E:", eventType, " " + meta)) == Some((Some(eventType), " " + meta))
    ensures (" " + meta)[1..] == meta
  {
    FieldExact("[E:", eventType, " " + meta, IsEventChar, 1);
  }

  lemma HeadChomped(line: nat, pointTo: nat, author: string, timestamp: string, first: string)
    ensures Chomp2(HeadText(line, pointTo, author, timestamp, " " + first))
         == HeadText(line, pointTo, author, timestamp, " " + Chomp2(first))
  {
    HeadSplits(line, pointTo, author, timestamp, " " + first);
    HeadSplits(line, pointTo, author, timestamp, " " + Chomp2(first));
    hide HeadText;
    var head := HeadText(line, pointTo, author, timestamp, "");
    assert head + (" " + first) == (head + " ") + first;
    assert head + (" " + Chomp2(first)) == (head + " ") + Chomp2(first);
    Chomp2After(head + " ", first);
  }

  lemma EventChomped(e: Entry)
    requires Formattable(e) && e.Event?
    ensures Chomp2(EventLine(e)) == EventLine(e)
  {
    hide HeadText, EndsCr;
    var tail := FieldText("[E:", e.eventType, " " + e.meta);
    HeadSplits(e.line, 0, e.author, e.timestamp, tail);
    EndsCrAfter("[E:" + e.eventType + "]" + " ", e.meta);
    assert tail == ("[E:" + e.eventType + "]" + " ") + e.meta;
    EndsCrAfter(HeadText(e.line, 0, e.author, e.timestamp, ""), tail);
  }

  lemma HeadLine(e: Entry)
    requires Formattable(e)
    ensures Chomp2(EntryLines(e)[0]) != ""
    ensures MatchHeader(Chomp2(EntryLines(e)[0]))
         == if e.Message?
            then (if HasFirstLine(e.body) then Some(HeadOf(e, Chomp2(BodyLines(e.body)[0]))) else None)
            else Some(HeadOf(e, e.meta))
  {
    if e.Message? {
      var first := Chomp2(BodyLines(e.body)[0]);
      HeadChomped(e.line, e.pointTo, e.author, e.timestamp, BodyLines(e.body)[0]);
      HeadSplits(e.line, e.pointTo, e.author, e.timestamp, " " + first);
      HeadMatches(e.line, e.pointTo, e.author, e.timestamp, " " + first);
      PlainGroup(first);
      hide EventGroup, MatchHeader, HeadText, Chomp2, BodyLines;
    } else {
      var tail := FieldText("[E:", e.eventType, " " + e.meta);
      EventChomped(e);
      HeadSplits(e.line, 0, e.author, e.timestamp, tail);
      HeadMatches(e.line, 0, e.author, e.timestamp, tail);
      JsonGroup(e.eventType, e.meta);
      hide EventGroup, MatchHeader, HeadText, Chomp2;
      assert tail != "";
    }
  }

  /** A visible entry, read after any entries, is one more entry in normal form. */
  lemma EntryParses(e: Entry, seen: nat, acc: seq<Entry>)
    requires Formattable(e) && Visible(e)
    ensures ParseLines(FileLines(Format(e)), seen, acc) == Ok(acc + [Normal(e)])
  {
    hide Step, FileLines, Format, EntryLines, Chomp2, Chomp2Each, BodyLines, Unescape, UnescapeEach;
    hide Formattable, Visible, Continues, Terminated;
    var text := if e.Message? then Chomp2(BodyLines(e.body)[0]) else e.meta;
    HeadStep(e, text, seen, acc);
    EntryFileLines(e);
    var ls := Chomp2Each(EntryLines(e));
    var opening := acc + [Normal(e).WithText(text)];
    ContinuationsExtend(ls[1..], seen + 1, opening);
    assert Init(opening) == acc;
    assert e.Event? ==> [text] + UnescapeEach(ls[1..]) == [text];
  }

  lemma HeadStep(e: Entry, text: string, seen: nat, acc: seq<Entry>)
    requires Formattable(e) && Visible(e)
    requires text == if e.Message? then Chomp2(BodyLines(e.body)[0]) else e.meta
    ensures Step(acc, Chomp2(EntryLines(e)[0]), seen + 1) == Ok(acc + [Normal(e).WithText(text)])
  {
    hide MatchHeader, Open, EntryLines, Chomp2, BodyLines, HeadOf, NormalBody, Formattable;
    HeadLine(e);
    OpenHead(e, text, seen + 1);
  }

  /** An invisible message is swallowed: it adds no entry. */
  lemma InvisibleIsLost(e: Entry, seen: nat, acc: seq<Entry>)
    requires Formattable(e) && !Visible(e)
    ensures var r := ParseLines(FileLines(Format(e)), seen, acc);
      r.Ok? ==> |r.value| == |acc|
  {
    EntryFileLines(e);
    HeadLine(e);
    var ls := Chomp2Each(EntryLines(e));
    if acc != [] {
      assert Continues(ls) by {
        forall i | 0 <= i < |ls| ensures MatchHeader(ls[i]).None? {
          if i > 0 {
            assert ls[i] == ls[1..][i - 1];
          }
        }
      }
      ContinuationsExtend(ls, seen, acc);
    }
  }

  // ----- the gluing case

  /** Appending to an unterminated file runs the new head into the old last line. */
  lemma GluedLines(file: string, e: Entry)
    requires Formattable(e) && !Terminated(file)
    ensures var ps := Split(file);
      && Last(ps) != ""
      && FileLines(file) == Chomp2Each(Init(ps)) + [Last(ps)]
      && FileLines(file + Format(e))
         == Chomp2Each(Init(ps)) + ([Last(ps) + Chomp2(EntryLines(e)[0])] + Chomp2Each(EntryLines(e))[1..])
  {
    var ps, ls := Split(file), EntryLines(e);
    TerminatedSplit(file);
    FileLinesForm(file);
    EntryLinesNewlineFree(e);
    SplitUnlines(ls);
    SplitConcat(file, Format(e));
    FileLinesForm(file + Format(e));
    HeadLine(e);
    ChompGlued(Last(ps), ls[0]);
    PiecesGlued(ps, ls);
  }

  lemma ChompGlued(l: string, h: string)
    requires Chomp2(h) != ""
    ensures Chomp2(l + h) == l + Chomp2(h)
  {
    ChompAfter(l, h);
    ChompAfter(l, ChompCr(h));
  }

  lemma PiecesGlued(ps: seq<string>, ls: seq<string>)
    requires |ps| >= 1 && |ls| >= 1
    requires Chomp2(Last(ps) + ls[0]) == Last(ps) + Chomp2(ls[0])
    ensures PieceLines(Glue(ps, ls + [""]))
         == Chomp2Each(Init(ps)) + ([Last(ps) + Chomp2(ls[0])] + Chomp2Each(ls)[1..])
  {
    hide Chomp2;
    var g := Glue(ps, ls + [""]);
    assert g == Init(ps) + ([Last(ps) + ls[0]] + ls[1..]) + [""];
    assert Init(g) == Init(ps) + ([Last(ps) + ls[0]] + ls[1..]);
    assert Chomp2Each(Init(g))
        == Chomp2Each(Init(ps)) + ([Last(ps) + Chomp2(ls[0])] + Chomp2Each(ls)[1..]);
  }

  /** Whatever the last line was, the glued reading is not the old entries plus one. */
  lemma GluingNeverFrames(acc: seq<Entry>, l: string, h: string, more: seq<string>, seen: nat, e: Entry)
    requires Continues(more)
    requires Step(acc, l, seen + 1).Ok?
    ensures ParseLines([l + h] + more, seen, acc) != Ok(Step(acc, l, seen + 1).value + [e])
  {
    var was := Step(acc, l, seen + 1).value;
    var s := Step(acc, l + h, seen + 1);
    assert ([l + h] + more)[1..] == more;
    if s.Ok? {
      ContinuationsExtend(more, seen + 1, s.value);
      if MatchHeader(l).Some? {
        HeaderExtends(l, h);
      } else if MatchHeader(l + h).Some? {
        var r := ParseLines(more, seen + 1, s.value).value;
        var k := |acc| - 1;
        assert r[k] == acc[k];
        assert |was[k].Text()| > |acc[k].Text()|;
        assert (was + [e])[k] == was[k];
      }
    }
  }

  lemma ParseOne(l: string, seen: nat, acc: seq<Entry>)
    ensures ParseLines([l], seen, acc) == Step(acc, l, seen + 1)
  {
    hide Step;
    assert [l][1..] == [];
  }

  lemma GluedReading(before: seq<string>, l: string, h: string, more: seq<string>, e: Entry)
    requires Continues(more) && ParseLines(before + [l], 0, []).Ok?
    ensures ParseLines(before + ([l + h] + more), 0, []) != Ok(ParseLines(before + [l], 0, []).value + [e])
  {
    hide Step, Continues;
    ParseSplits(before, [l], 0, []);
    ParseSplits(before, [l + h] + more, 0, []);
    var acc := ParseLines(before, 0, []).value;
    ParseOne(l, |before|, acc);
    GluingNeverFrames(acc, l, h, more, |before|, e);
  }

  lemma UnterminatedNeverFrames(file: string, e: Entry)
    requires Formattable(e) && !Terminated(file) && Parse(file).Ok?
    ensures Parse(file + Format(e)) != Ok(Parse(file).value + [Normal(e)])
  {
    hide Step, ParseLines, FileLines, Split, EntryLines, Chomp2Each, Chomp2, Format, Normal, Terminated;
    hide Formattable, UnescapeEach, BodyLines, Continues;
    GluedLines(file, e);
    EntryFileLines(e);
    GluedReading(Chomp2Each(Init(Split(file))), Last(Split(file)), Chomp2(EntryLines(e)[0]),
                 Chomp2Each(EntryLines(e))[1..], Normal(e));
  }

  // ----- main results

  /** Appending a formatted entry to a readable file adds exactly that entry, in normal form, if and
      only if the file ends in a newline (or is empty) and the entry has a first line to show. */
  lemma AppendFrames(file: string, e: Entry)
    requires Formattable(e) && Parse(file).Ok?
    ensures Parse(file + Format(e)) == Ok(Parse(file).value + [Normal(e)])
      <==> Terminated(file) && Visible(e)
  {
    hide Step, FileLines, Format, Normal, Terminated, Formattable, Visible;
    if Terminated(file) {
      FileLinesConcat(file, Format(e));
      ParseSplits(FileLines(file), FileLines(Format(e)), 0, []);
      var n, was := |FileLines(file)|, Parse(file).value;
      if Visible(e) {
        EntryParses(e, n, was);
      } else {
        InvisibleIsLost(e, n, was);
      }
    } else {
      UnterminatedNeverFrames(file, e);
    }
  }

  function FormatAll(es: seq<Entry>): string {
    if es == [] then "" else FormatAll(Init(es)) + Format(Last(es))
  }

  function NormalAll(es: seq<Entry>): (r: seq<Entry>)
    ensures |r| == |es|
  {
    seq(|es|, i requires 0 <= i < |es| => Normal(es[i]))
  }

  /** A file built by any number of appends reads back as those entries, in order. */
  lemma {:induction false} FileFrames(es: seq<Entry>)
    requires forall i | 0 <= i < |es| :: Formattable(es[i]) && Visible(es[i])
    ensures Terminated(FormatAll(es))
    ensures Parse(FormatAll(es)) == Ok(NormalAll(es))
  {
    hide Parse, Format, Normal, Formattable, Visible, Terminated;
    if es == [] {
      EmptyFile();
    } else {
      FileFrames(Init(es));
      var e := Last(es);
      AppendFrames(FormatAll(Init(es)), e);
      FormatTerminated(e);
      TerminatedConcat(FormatAll(Init(es)), Format(e));
      assert NormalAll(es) == NormalAll(Init(es)) + [Normal(e)];
    }
  }

  lemma EmptyFile()
    ensures Terminated("") && Parse("") == Ok([])
  {
    assert FileLines("") == [];
  }

  lemma FormatTerminated(e: Entry)
    requires Formattable(e)
    ensures Terminated(Format(e))
  {
    EntryFileLines(e);
  }

  lemma TerminatedConcat(a: string, b: string)
    requires Terminated(a) && Terminated(b)
    ensures Terminated(a + b)
  {
    if b != "" {
      assert (a + b)[|a + b| - 1] == b[|b| - 1];
    } else {
      assert a + b == a;
    }
  }
}
