/** Conflict resolution for thread files: local additions are renumbered to follow the remote
    file and appended to it. */
module Renumber {
  import opened Results
  import opened Text
  import opened Thread
  import opened ThreadFraming
  import opened BodyForm

  // ----- renumbering

  /** New numbers by position; of entries that share a number, the last one decides. */
  function LineMap(es: seq<Entry>, max: nat): (m: map<nat, nat>)
    ensures forall i | 0 <= i < |es| :: es[i].line in m
    ensures forall n | n in m :: max < m[n] <= max + |es|
    ensures forall n | n in m :: exists i | 0 <= i < |es| :: es[i].line == n
  {
    if es == [] then map[] else LineMap(Init(es), max)[Last(es).line := max + |es|]
  }

  function NewTarget(pointTo: nat, m: map<nat, nat>): nat {
    if pointTo == 0 then 0 else if pointTo in m then m[pointTo] else pointTo
  }

  /** `rejson` stands for parsing an event's JSON and writing it out again. */
  function Renumbered(e: Entry, m: map<nat, nat>, rejson: string -> string): Entry
    requires e.line in m
  {
    match e
    case Message(line, pointTo, author, timestamp, body) =>
      Message(m[line], NewTarget(pointTo, m), author, timestamp, body)
    case Event(line, _, author, timestamp, eventType, meta) =>
      Event(m[line], 0, author, timestamp, eventType, rejson(meta))
  }

  function RenumberAll(es: seq<Entry>, m: map<nat, nat>, rejson: string -> string): (r: seq<Entry>)
    requires forall i | 0 <= i < |es| :: es[i].line in m
    ensures |r| == |es|
  {
    seq(|es|, i requires 0 <= i < |es| => Renumbered(es[i], m, rejson))
  }

  method BuildLineMap(es: seq<Entry>, max: nat) returns (m: map<nat, nat>)
    ensures m == LineMap(es, max)
  {
    m := map[];
    assert es[..0] == [];
    for i := 0 to |es|
      invariant m == LineMap(es[..i], max)
    {
      assert Init(es[..i + 1]) == es[..i];
      m := m[es[i].line := max + 1 + i];
    }
    assert es[..|es|] == es;
  }

  method RenumberBatch(batch: string, max: nat, rejson: string -> string)
    returns (r: Result<string, ParseError>)
    ensures var file := Parse(batch);
      r == if file.Ok? then Ok(FormatAll(RenumberAll(file.value, LineMap(file.value, max), rejson))) else Err(file.error)
  {
    hide Parse, FormatAll, RenumberAll, LineMap;
    var file := ParseThread(batch);
    if file.Err? {
      return Err(file.error);
    }
    var es := file.value;
    var lineMap := BuildLineMap(es, max);
    var output := WriteAll(es, lineMap, rejson);
    r := Ok(output);
  }

  method WriteAll(es: seq<Entry>, m: map<nat, nat>, rejson: string -> string) returns (output: string)
    requires forall i | 0 <= i < |es| :: es[i].line in m
    ensures output == FormatAll(RenumberAll(es, m, rejson))
  {
    hide Format, Renumbered;
    output := "";
    ghost var all := RenumberAll(es, m, rejson);
    for i := 0 to |es|
      invariant output == FormatAll(all[..i])
    {
      assert Init(all[..i + 1]) == all[..i];
      output := output + Format(Renumbered(es[i], m, rejson));
    }
    assert all[..|es|] == all;
  }

  // ----- resolving one file

  function MaxLine(es: seq<Entry>): (n: nat)
    ensures forall i | 0 <= i < |es| :: es[i].line <= n
    ensures if es == [] then n == 0 else exists i | 0 <= i < |es| :: es[i].line == n
  {
    if es == [] then 0
    else
      var n := MaxLine(Init(es));
      if |es| == 1 || Last(es).line >= n then Last(es).line else n
  }

  function Terminate(s: string): string {
    if Terminated(s) then s else s + "\n"
  }

  /** `resolve_content_pure` on one file: the new content, or the first parse failure. The renumbered text
      is parsed once more for its line numbers. */
  function Resolve(remote: string, local: string, rejson: string -> string): Result<string, ParseError> {
    var r :- Parse(remote);
    var l :- Parse(local);
    var renumbered := FormatAll(RenumberAll(l, LineMap(l, MaxLine(r)), rejson));
    var _ :- Parse(renumbered);
    Ok(Terminate(remote) + renumbered)
  }

  /** Ending a readable file with a newline leaves its reading alone exactly when it does not end in a
      carriage return, which the newline would take with it; it never adds an entry. */
  lemma TerminateKeepsReading(s: string)
    requires Parse(s).Ok?
    ensures Parse(Terminate(s)) == Parse(s) <==> !EndsCr(s)
    ensures Parse(Terminate(s)).Ok? ==> |Parse(Terminate(s)).value| <= |Parse(s).value|
  {
    hide Split, ParseLines, FileLines, PieceLines, EndsCr;
    if Terminated(s) {
      TerminatedNoCr(s);
    } else {
      var ps := Split(s);
      DropNewline(s);
      FileLinesForm(s);
      FileLinesForm(s + "\n");
      TerminatedSplit(s);
      LastPiece(s);
      LastEndsCr(s, Last(ps));
      PiecesTerminated(ps);
      if EndsCr(s) {
        LastLineShrinks(Chomp2Each(Init(ps)), Last(ps));
      } else {
        ChompNone(Last(ps));
      }
    }
  }

  lemma TerminatedNoCr(s: string)
    requires Terminated(s)
    ensures !EndsCr(s)
  {
  }

  /** A last line that loses its carriage return reads differently. */
  lemma LastLineShrinks(before: seq<string>, l: string)
    requires EndsCr(l) && ParseLines(before + [l], 0, []).Ok?
    ensures ParseLines(before + [Chomp2(l)], 0, []) != ParseLines(before + [l], 0, [])
    ensures var r := ParseLines(before + [Chomp2(l)], 0, []);
      r.Ok? ==> |r.value| <= |ParseLines(before + [l], 0, []).value|
  {
    hide Step, Chomp2, EndsCr;
    ParseSplits(before, [l], 0, []);
    ParseSplits(before, [Chomp2(l)], 0, []);
    var acc := ParseLines(before, 0, []).value;
    ParseOne(l, |before|, acc);
    ParseOne(Chomp2(l), |before|, acc);
    ShrunkStep(acc, l, |before| + 1);
  }

  lemma ShrunkStep(acc: seq<Entry>, l: string, n: nat)
    requires EndsCr(l) && Step(acc, l, n).Ok?
    ensures Step(acc, Chomp2(l), n) != Step(acc, l, n)
    ensures Step(acc, Chomp2(l), n).Ok? ==> |Step(acc, Chomp2(l), n).value| <= |Step(acc, l, n).value|
  {
    hide MatchHeader, Chomp2, EndsCr, Open, Extend;
    var c := Chomp2(l);
    ChompTail(l);
    if MatchHeader(c).Some? {
      ShrunkHeader(c, l[|c|..], n);
      var e := Open(MatchHeader(l).value, n).value;
      assert Step(acc, l, n).value[|acc|] == e;
      if Step(acc, c, n).Ok? {
        assert Step(acc, c, n).value[|acc|] == Open(MatchHeader(c).value, n).value;
      }
    } else if MatchHeader(l).None? {
      ShrunkContinuation(acc, l);
    }
  }

  lemma ChompTail(l: string)
    requires EndsCr(l)
    ensures |Chomp2(l)| < |l| && l == Chomp2(l) + l[|Chomp2(l)|..]
  {
  }

  lemma ShrunkHeader(c: string, t: string, n: nat)
    requires MatchHeader(c).Some? && t != ""
    ensures MatchHeader(c + t).Some?
    ensures Open(MatchHeader(c + t).value, n).Ok? ==> Open(MatchHeader(c).value, n) != Open(MatchHeader(c + t).value, n)
  {
    hide MatchHeader, Open;
    HeaderExtends(c, t);
    OpenText(MatchHeader(c).value, n);
    OpenText(MatchHeader(c + t).value, n);
  }

  lemma ShrunkContinuation(acc: seq<Entry>, l: string)
    requires acc != [] && EndsCr(l)
    ensures Extend(acc, Chomp2(l)) != Extend(acc, l)
  {
    hide Unescape, Chomp2, EndsCr;
    UnescapeShrinks(l);
    var e := Last(acc);
    assert Last(Extend(acc, l)).Text() == e.Text() + "\n" + Unescape(l);
    assert Last(Extend(acc, Chomp2(l))).Text() == e.Text() + "\n" + Unescape(Chomp2(l));
  }

  lemma UnescapeShrinks(l: string)
    requires EndsCr(l)
    ensures |Unescape(Chomp2(l))| < |Unescape(l)|
  {
    var c := Chomp2(l);
    if " [L" <= l {
      assert l == l[..3] + l[3..];
      Chomp2After(l[..3], l[3..]);
    }
  }

  lemma LastEndsCr(s: string, l: string)
    requires s != "" && l != "" && Last(s) == Last(l)
    ensures EndsCr(s) <==> EndsCr(l)
  {
  }

  lemma PiecesTerminated(ps: seq<string>)
    requires |ps| >= 1 && Last(ps) != ""
    ensures PieceLines(ps) == Chomp2Each(Init(ps)) + [Last(ps)]
    ensures PieceLines(ps + [""]) == Chomp2Each(Init(ps)) + [Chomp2(Last(ps))]
  {
    hide Chomp2;
    assert Init(ps + [""]) == ps;
    assert Chomp2Each(ps) == Chomp2Each(Init(ps)) + [Chomp2(Last(ps))];
  }

  lemma ChompNone(l: string)
    requires !EndsCr(l)
    ensures Chomp2(l) == l
  {
  }

  lemma {:induction false} LastPiece(s: string)
    ensures Last(Split(s)) != "" ==> s != "" && Last(Last(Split(s))) == Last(s)
  {
    if s != "" {
      LastPiece(s[1..]);
      var ps := Split(s[1..]);
      if s[0] == '\n' {
        assert Last([""] + ps) == Last(ps);
      } else if |ps| == 1 {
        if ps[0] == "" {
          JoinSplit(s[1..]);
        }
      }
    }
  }

  // ----- what the parser can return

  /** A body that opens with an ordinary character. */
  predicate Headed(body: string) {
    body != "" && body[0] != '\n' && body[0] != '\r'
  }

  /** What the parser returns; in a file without carriage returns bodies are headed too. */
  predicate Parsed(e: Entry, clean: bool) {
    && Addressed(e)
    && (e.Event? ==> IsEventType(e.eventType))
    && (clean && e.Message? ==> Headed(e.body))
  }

  lemma FieldClass(s: string, open: string, p: char -> bool, least: nat)
    requires CrFree(s) && NoNewline(s) && Field(s, open, p, least).Some?
    ensures CrFree(Field(s, open, p, least).value.1) && NoNewline(Field(s, open, p, least).value.1)
  {
  }

  lemma HeaderClasses(l: string)
    requires MatchHeader(l).Some?
    ensures var h := MatchHeader(l).value;
      IsTimestamp(h.timestamp) && (h.eventType.Some? ==> IsEventType(h.eventType.value))
  {
    hide Field, IsTimestamp, IsEventType;
  }

  lemma HeaderHeaded(l: string)
    requires CrFree(l) && NoNewline(l) && MatchHeader(l).Some?
    ensures Headed(MatchHeader(l).value.text)
  {
    hide Field;
    var r1 := Field(l, "[L", IsDigit, 6).value.1;
    FieldClass(l, "[L", IsDigit, 6);
    var r2 := Field(r1, "[P", IsDigit, 6).value.1;
    FieldClass(r1, "[P", IsDigit, 6);
    var r3 := Field(r2, "[@", IsHandlerChar, 1).value.1;
    FieldClass(r2, "[@", IsHandlerChar, 1);
    var r4 := Timestamp(r3).value.1;
    assert CrFree(r4) && NoNewline(r4);
    if r4 != "" && r4[0] == '[' {
      FieldClass(r4, "[E:", IsEventChar, 1);
    }
  }

  lemma StepParsed(acc: seq<Entry>, l: string, fileLine: nat, clean: bool)
    requires clean ==> CrFree(l) && NoNewline(l)
    requires forall i | 0 <= i < |acc| :: Parsed(acc[i], clean)
    requires Step(acc, l, fileLine).Ok?
    ensures forall i | 0 <= i < |Step(acc, l, fileLine).value| :: Parsed(Step(acc, l, fileLine).value[i], clean)
  {
    hide MatchHeader, HandlerNew, IsTimestamp, IsEventType;
    if MatchHeader(l).Some? {
      HeaderClasses(l);
      if clean {
        HeaderHeaded(l);
      }
    }
  }

  lemma {:induction false} LinesParsed(ls: seq<string>, seen: nat, acc: seq<Entry>, clean: bool)
    requires clean ==> forall i | 0 <= i < |ls| :: CrFree(ls[i]) && NoNewline(ls[i])
    requires forall i | 0 <= i < |acc| :: Parsed(acc[i], clean)
    requires ParseLines(ls, seen, acc).Ok?
    ensures forall i | 0 <= i < |ParseLines(ls, seen, acc).value| :: Parsed(ParseLines(ls, seen, acc).value[i], clean)
  {
    hide Step, Parsed;
    if ls != [] {
      StepParsed(acc, ls[0], seen + 1, clean);
      LinesParsed(ls[1..], seen + 1, Step(acc, ls[0], seen + 1).value, clean);
    }
  }

  lemma ParsedEntries(s: string, clean: bool)
    requires Parse(s).Ok? && (clean ==> CrFree(s))
    ensures forall i | 0 <= i < |Parse(s).value| :: Parsed(Parse(s).value[i], clean)
  {
    hide Split, ParseLines, Parsed, FileLines, CrFree, NoNewline;
    if clean {
      CleanLines(s);
    }
    LinesParsed(FileLines(s), 0, [], clean);
  }

  lemma CleanLines(s: string)
    requires CrFree(s)
    ensures forall i | 0 <= i < |FileLines(s)| :: CrFree(FileLines(s)[i]) && NoNewline(FileLines(s)[i])
  {
    hide Split, FileLines, Chomp2;
    FileLinesForm(s);
    CrFreePieces(s);
    var ps := Split(s);
    forall i | 0 <= i < |ps| ensures CrFree(Chomp2(ps[i])) && NoNewline(Chomp2(ps[i])) {
      CleanChomp(ps[i]);
    }
    hide CrFree, NoNewline;
  }

  lemma CleanChomp(l: string)
    requires CrFree(l) && NoNewline(l)
    ensures CrFree(Chomp2(l)) && NoNewline(Chomp2(l))
  {
  }

  lemma HeadedShows(body: string)
    requires Headed(body)
    ensures HasFirstLine(body)
  {
    var ps := Split(body);
    assert ps[0] != "" && ps[0][0] == body[0];
    hide Split;
  }

  /** Additions without carriage returns always have first lines to show. */
  lemma CleanIsVisible(local: string)
    requires Parse(local).Ok? && CrFree(local)
    ensures forall i | 0 <= i < |Parse(local).value| :: Visible(Parse(local).value[i])
  {
    hide Parse, HasFirstLine, Addressed, CrFree;
    ParsedEntries(local, true);
    var l := Parse(local).value;
    forall i | 0 <= i < |l| ensures Visible(l[i]) {
      assert Parsed(l[i], true);
      if l[i].Message? {
        HeadedShows(l[i].body);
      }
    }
  }

  // ----- main results

  /** Given that rewritten JSON is one line, everything a renumbering writes is well formed. */
  lemma RenumberedWritable(es: seq<Entry>, m: map<nat, nat>, rejson: string -> string)
    requires forall i | 0 <= i < |es| :: Parsed(es[i], false)
    requires forall t :: IsJsonLine(rejson(t))
    requires forall i | 0 <= i < |es| :: es[i].line in m
    requires forall n | n in m :: m[n] < U64
    ensures var w := RenumberAll(es, m, rejson);
      forall i | 0 <= i < |w| :: Formattable(w[i]) && (Visible(w[i]) <==> Visible(es[i]))
  {
    hide HasFirstLine, ValidAuthor, IsTimestamp, IsJsonLine, IsEventType, Headed;
    forall i | 0 <= i < |es|
      ensures Formattable(Renumbered(es[i], m, rejson)) && (Visible(Renumbered(es[i], m, rejson)) <==> Visible(es[i]))
    {
      assert Parsed(es[i], false);
    }
  }

  /** A readable remote and readable additions resolve exactly when the first addition, if any, has a first
      line to show: otherwise the renumbered text is refused on its first line and nothing is written.
      The resolved file then reads as the remote's entries followed by the local ones, renumbered, exactly
      when every local entry has a first line to show and the remote does not end in a carriage return. */
  lemma ResolveKeepsBothSides(remote: string, local: string, rejson: string -> string)
    requires Parse(remote).Ok? && Parse(local).Ok?
    requires forall t :: IsJsonLine(rejson(t))
    requires MaxLine(Parse(remote).value) + |Parse(local).value| < U64
    ensures var l := Parse(local).value;
      Resolve(remote, local, rejson).Ok? <==> l == [] || Visible(l[0])
    ensures var r, l := Parse(remote).value, Parse(local).value;
      Resolve(remote, local, rejson).Ok? ==>
        (Parse(Resolve(remote, local, rejson).value)
         == Ok(r + NormalAll(RenumberAll(l, LineMap(l, MaxLine(r)), rejson)))
         <==> !EndsCr(remote) && forall i | 0 <= i < |l| :: Visible(l[i]))
  {
    hide Parse, FormatAll, EndsCr, IsJsonLine, Terminated, Formattable, Visible, Parsed, Terminate;
    var r, l := Parse(remote).value, Parse(local).value;
    var m := LineMap(l, MaxLine(r));
    var w := RenumberAll(l, m, rejson);
    ParsedEntries(local, false);
    RenumberedWritable(l, m, rejson);
    TerminateKeepsReading(remote);
    TerminateTerminates(remote);
    AllVisible(l, w);
    BatchReads(w);
    ResolvedReading(Terminate(remote), r, w);
  }

  /** After any entry, a formatted entry is read without error, visible or not. */
  lemma ReadsOn(e: Entry, seen: nat, acc: seq<Entry>)
    requires Formattable(e) && acc != []
    ensures var r := ParseLines(FileLines(Format(e)), seen, acc); r.Ok? && r.value != []
  {
    if Visible(e) {
      EntryParses(e, seen, acc);
    } else {
      EntryFileLines(e);
      HeadLine(e);
      var ls := Chomp2Each(EntryLines(e));
      assert Continues(ls) by {
        forall i | 0 <= i < |ls| ensures MatchHeader(ls[i]).None? {
          if i > 0 {
            assert ls[i] == ls[1..][i - 1];
          }
        }
      }
      hide FileLines, Format, MatchHeader, Formattable, Visible, Chomp2Each;
      ContinuationsExtend(ls, seen, acc);
    }
  }

  /** A batch reads without error exactly when it is empty or starts with a visible entry. */
  lemma {:induction false} BatchReads(es: seq<Entry>)
    requires forall i | 0 <= i < |es| :: Formattable(es[i])
    ensures Terminated(FormatAll(es))
    ensures Parse(FormatAll(es)).Ok? <==> es == [] || Visible(es[0])
    ensures Parse(FormatAll(es)).Ok? && es != [] ==> Parse(FormatAll(es)).value != []
  {
    hide Parse, Format, Formattable, Visible, Terminated;
    EmptyFile();
    if es != [] {
      var init, e := Init(es), Last(es);
      BatchReads(init);
      FormatTerminated(e);
      TerminatedConcat(FormatAll(init), Format(e));
      BatchStep(FormatAll(init), e);
      if init == [] {
        assert FormatAll(init) == "" && "" + Format(e) == Format(e);
      }
    }
  }

  lemma BatchStep(file: string, e: Entry)
    requires Terminated(file) && Formattable(e)
    ensures Parse(file).Err? ==> Parse(file + Format(e)).Err?
    ensures Parse(file).Ok? && Parse(file).value != [] ==> Parse(file + Format(e)).Ok? && Parse(file + Format(e)).value != []
    ensures Parse(file) == Ok([]) ==> (Parse(file + Format(e)).Ok? <==> Visible(e))
    ensures Parse(file) == Ok([]) && Visible(e) ==> Parse(file + Format(e)).value != []
  {
    hide Step, FileLines, Format, Terminated, Formattable, Visible, Normal;
    FileLinesConcat(file, Format(e));
    ParseSplits(FileLines(file), FileLines(Format(e)), 0, []);
    if Parse(file).Ok? {
      if Parse(file).value != [] {
        ReadsOn(e, |FileLines(file)|, Parse(file).value);
      } else if Visible(e) {
        EntryParses(e, |FileLines(file)|, []);
      } else {
        FirstIsRefused(e, |FileLines(file)|);
      }
    }
  }

  lemma FirstIsRefused(e: Entry, seen: nat)
    requires Formattable(e) && !Visible(e)
    ensures ParseLines(FileLines(Format(e)), seen, []).Err?
  {
    EntryFileLines(e);
    HeadLine(e);
    hide MatchHeader, FileLines, Format, Chomp2Each;
  }

  // ----- a message that is lost

  /** A message of three carriage returns, which a reader sees as one. */
  function Returns(line: nat, author: string, timestamp: string): Entry {
    Message(line, 0, author, timestamp, "\r\r\r")
  }

  lemma ReturnsRead()
    ensures HasFirstLine("\r\r\r") && NormalBody("\r\r\r") == "\r" && !HasFirstLine("\r")
    ensures HasFirstLine("x") && NormalBody("x") == "x"
  {
    hide HasFirstLine, NormalBody, Chomp2;
    OneLineBody("\r\r\r");
    OneLineBody("\r");
    OneLineBody("x");
    ChompReturns();
  }

  lemma ChompReturns()
    ensures Chomp2("\r\r\r") == "\r" && Chomp2("\r") == "" && Chomp2("x") == "x"
  {
    assert ChompCr("\r\r\r") == "\r\r" && ChompCr("\r\r") == "\r" && ChompCr("\r") == "" && ChompCr("") == "";
  }

  lemma OneLineBody(b: string)
    requires NoNewline(b) && b != ""
    ensures NormalBody(b) == Chomp2(b) && (HasFirstLine(b) <==> Chomp2(b) != "")
  {
    SplitPlain(b);
    hide Split, Chomp2, Unescape;
    assert BodyLines(b) == [b];
    assert NormalLines(b) == [Chomp2(b)];
  }

  /** Two messages that read back as two are resolved without error into a file that shows only one. */
  lemma SecondMessageIsLost(author: string, timestamp: string, rejson: string -> string)
    requires ValidAuthor(author) && IsTimestamp(timestamp) && forall t :: IsJsonLine(rejson(t))
    ensures var local := FormatAll([Message(1, 0, author, timestamp, "x"), Returns(2, author, timestamp)]);
      && Parse(local).Ok? && |Parse(local).value| == 2
      && Resolve("", local, rejson).Ok? && Parse(Resolve("", local, rejson).value).Ok?
      && |Parse(Resolve("", local, rejson).value).value| == 1
  {
    hide Parse, FormatAll, HasFirstLine, NormalBody, ValidAuthor, IsTimestamp, IsJsonLine, Terminated;
    ReturnsRead();
    EmptyFile();
    var es := [Message(1, 0, author, timestamp, "x"), Returns(2, author, timestamp)];
    var local := FormatAll(es);
    FileFrames(es);
    var l := NormalAll(es);
    assert l == [Message(1, 0, author, timestamp, "x"), Message(2, 0, author, timestamp, "\r")];
    ResolveKeepsBothSides("", local, rejson);
    LinesOfTwo(l);
    var m := LineMap(l, 0);
    var w := RenumberAll(l, m, rejson);
    assert w == l;
    OneIsLost(w[0], w[1]);
    assert [w[0], w[1]] == w && Terminate("") + FormatAll(w) == FormatAll(w);
  }

  lemma LinesOfTwo(l: seq<Entry>)
    requires |l| == 2 && l[0].line == 1 && l[1].line == 2
    ensures LineMap(l, 0)[1] == 1 && LineMap(l, 0)[2] == 2
  {
    LineMapAt(l, 0, 1);
    LineMapAt(l, 0, 2);
    hide LineMap;
    assert l[0].line == 1 && l[1].line == 2;
  }

  lemma OneIsLost(a: Entry, b: Entry)
    requires Formattable(a) && Formattable(b) && Visible(a) && !Visible(b)
    ensures Parse(FormatAll([a, b])).Ok? && |Parse(FormatAll([a, b])).value| == 1
  {
    hide Parse, Format, Formattable, Visible, Terminated;
    EmptyFile();
    BatchReads([a, b]);
    FileFrames([a]);
    assert Init([a, b]) == [a] && Last([a, b]) == b;
    AppendCounts(FormatAll([a]), b);
  }

  lemma AllVisible(l: seq<Entry>, w: seq<Entry>)
    requires |l| == |w| && forall i | 0 <= i < |w| :: Visible(w[i]) <==> Visible(l[i])
    ensures (forall i | 0 <= i < |l| :: Visible(l[i])) <==> (forall i | 0 <= i < |w| :: Visible(w[i]))
  {
    hide Visible;
    if forall i | 0 <= i < |w| :: Visible(w[i]) {
      assert forall i | 0 <= i < |l| :: Visible(w[i]);
    }
  }

  /** Appending to a terminated file that reads as `r` or as at most that many other entries. */
  lemma ResolvedReading(file: string, r: seq<Entry>, w: seq<Entry>)
    requires Terminated(file) && (Parse(file).Ok? ==> |Parse(file).value| <= |r|)
    requires forall i | 0 <= i < |w| :: Formattable(w[i])
    ensures Parse(file + FormatAll(w)) == Ok(r + NormalAll(w))
      <==> Parse(file) == Ok(r) && forall i | 0 <= i < |w| :: Visible(w[i])
  {
    hide Parse, FormatAll, Terminated, Formattable, Visible, NormalAll;
    var all := NormalAll(w);
    if Parse(file).Err? {
      ErrorsStay(file, FormatAll(w));
    } else {
      var p := Parse(file).value;
      FramesCount(file, w);
      if forall i | 0 <= i < |w| :: Visible(w[i]) {
        AppendAllFrames(file, w);
        SamePrefix(p, r, all);
      }
    }
  }

  lemma SamePrefix<T>(p: seq<T>, r: seq<T>, n: seq<T>)
    ensures p + n == r + n <==> p == r
  {
    if p + n == r + n {
      assert |p| == |r| && p == (p + n)[..|p|] && r == (r + n)[..|r|];
    }
  }

  lemma ErrorsStay(file: string, more: string)
    requires Terminated(file) && Parse(file).Err?
    ensures Parse(file + more).Err?
  {
    hide Step, FileLines, Terminated;
    FileLinesConcat(file, more);
    ParseSplits(FileLines(file), FileLines(more), 0, []);
  }

  lemma TerminateTerminates(s: string)
    ensures Terminated(Terminate(s))
  {
  }

  lemma {:induction false} AppendAllFrames(file: string, es: seq<Entry>)
    requires Terminated(file) && Parse(file).Ok?
    requires forall i | 0 <= i < |es| :: Formattable(es[i]) && Visible(es[i])
    ensures Terminated(file + FormatAll(es))
    ensures Parse(file + FormatAll(es)) == Ok(Parse(file).value + NormalAll(es))
  {
    hide Parse, Format, Normal, Formattable, Visible, Terminated;
    if es == [] {
      assert file + "" == file;
      assert Parse(file).value + NormalAll(es) == Parse(file).value;
    } else {
      AppendAllFrames(file, Init(es));
      var e, was := Last(es), file + FormatAll(Init(es));
      AppendFrames(was, e);
      FormatTerminated(e);
      TerminatedConcat(was, Format(e));
      assert file + FormatAll(es) == was + Format(e);
      var before := Parse(file).value;
      assert before + NormalAll(es) == before + NormalAll(Init(es)) + [Normal(e)];
    }
  }

  lemma AppendCounts(file: string, e: Entry)
    requires Terminated(file) && Parse(file).Ok? && Formattable(e) && Parse(file + Format(e)).Ok?
    ensures |Parse(file + Format(e)).value| == |Parse(file).value| + if Visible(e) then 1 else 0
  {
    hide Step, FileLines, Format, Terminated, Formattable, Visible, Normal;
    FileLinesConcat(file, Format(e));
    ParseSplits(FileLines(file), FileLines(Format(e)), 0, []);
    if Visible(e) {
      EntryParses(e, |FileLines(file)|, Parse(file).value);
    } else {
      InvisibleIsLost(e, |FileLines(file)|, Parse(file).value);
    }
  }

  /** Every entry without a first line costs the reading one. */
  lemma {:induction false} FramesCount(file: string, es: seq<Entry>)
    requires Terminated(file) && Parse(file).Ok?
    requires forall i | 0 <= i < |es| :: Formattable(es[i])
    ensures Terminated(file + FormatAll(es))
    ensures var r := Parse(file + FormatAll(es));
      && (r.Ok? ==> |r.value| <= |Parse(file).value| + |es|)
      && (r.Ok? && (exists i | 0 <= i < |es| :: !Visible(es[i])) ==> |r.value| < |Parse(file).value| + |es|)
  {
    hide Parse, Format, Normal, Formattable, Visible, Terminated;
    if es == [] {
      assert file + "" == file;
    } else {
      var e, was := Last(es), file + FormatAll(Init(es));
      FramesCount(file, Init(es));
      FormatTerminated(e);
      TerminatedConcat(was, Format(e));
      assert file + FormatAll(es) == was + Format(e);
      if Parse(was).Err? {
        ErrorsStay(was, Format(e));
      } else if Parse(was + Format(e)).Ok? {
        AppendCounts(was, e);
        if i :| 0 <= i < |es| && !Visible(es[i]) {
          assert i < |es| - 1 ==> Init(es)[i] == es[i];
        }
      }
    }
  }

  /** The last entry with a line number. */
  function LastAt(es: seq<Entry>, n: nat): (i: nat)
    requires exists i | 0 <= i < |es| :: es[i].line == n
    ensures i < |es| && es[i].line == n && forall j | i < j < |es| :: es[j].line != n
  {
    if Last(es).line == n then |es| - 1
    else
      assert exists i | 0 <= i < |Init(es)| :: Init(es)[i].line == n by {
        var i :| 0 <= i < |es| && es[i].line == n;
        assert Init(es)[i] == es[i];
      }
      LastAt(Init(es), n)
  }

  lemma {:induction false} LineMapAt(es: seq<Entry>, max: nat, n: nat)
    requires exists i | 0 <= i < |es| :: es[i].line == n
    ensures n in LineMap(es, max) && LineMap(es, max)[n] == max + 1 + LastAt(es, n)
  {
    if Last(es).line != n {
      var i :| 0 <= i < |es| && es[i].line == n;
      assert Init(es)[i] == es[i];
      LineMapAt(Init(es), max, n);
    }
  }

  /** An entry's new number comes from the last entry that shares its old one, so it is its own place
      after the remote's numbers exactly when no later entry does; a reply inside the batch points at
      the new number of whatever it answered, a reply to anything else keeps its target, and a body
      changes exactly when it is not plain. */
  lemma RenumberKeepsReplies(es: seq<Entry>, max: nat, rejson: string -> string, i: nat)
    requires i < |es|
    ensures var w := NormalAll(RenumberAll(es, LineMap(es, max), rejson));
      && w[i].line == max + 1 + LastAt(es, es[i].line)
      && (w[i].line == max + 1 + i <==> forall j | i < j < |es| :: es[j].line != es[i].line)
      && w[i].author == es[i].author && w[i].timestamp == es[i].timestamp
      && (es[i].Message? ==>
           && w[i].Message?
           && (w[i].body == es[i].body <==> PlainBody(es[i].body))
           && (es[i].pointTo == 0 ==> w[i].pointTo == 0)
           && (forall j | 0 <= j < |es| && es[i].pointTo == es[j].line != 0 :: w[i].pointTo == w[j].line)
           && ((forall j | 0 <= j < |es| :: es[j].line != es[i].pointTo) ==> w[i].pointTo == es[i].pointTo))
      && (es[i].Event? ==>
           w[i].Event? && w[i].eventType == es[i].eventType && w[i].pointTo == 0 && w[i].meta == rejson(es[i].meta))
  {
    hide PlainBody, NormalBody;
    LineMapAt(es, max, es[i].line);
    if es[i].Message? {
      NormalIsIdentity(es[i].body);
    }
  }
}
