/** The `.thread` codec: handlers, the message-start matcher, the formatter and the parser.
    Functions give the meaning; the methods at the end run the source's loops and are proved
    equal to them. */
module Thread {
  import opened Results
  import opened Text

  const U64: nat := 0x1_0000_0000_0000_0000

  // ----- handlers

  datatype HandlerError =
    | Empty
    | TooLong
    | Reserved
    | InvalidChar(c: char)
    | HyphenBoundary
    | ConsecutiveHyphens

  predicate IsHandlerChar(c: char) {
    'a' <= c <= 'z' || '0' <= c <= '9' || c == '-'
  }

  function FirstInvalid(s: string): Option<char> {
    if s == "" then None
    else if !IsHandlerChar(s[0]) then Some(s[0])
    else FirstInvalid(s[1..])
  }

  predicate HasDoubleHyphen(s: string) {
    exists i | 0 <= i < |s| - 1 :: s[i] == '-' && s[i + 1] == '-'
  }

  function HandlerNew(s: string): Result<string, HandlerError> {
    if s == "" then Err(Empty)
    else if |s| > 39 then Err(TooLong)
    else if s == "system" then Err(Reserved)
    else if FirstInvalid(s).Some? then Err(InvalidChar(FirstInvalid(s).value))
    else if s[0] == '-' || s[|s| - 1] == '-' then Err(HyphenBoundary)
    else if HasDoubleHyphen(s) then Err(ConsecutiveHyphens)
    else Ok(s)
  }

  /** What a `Handler` value can hold: a registered name or the daemon's own voice. */
  predicate ValidAuthor(h: string) {
    h == "system" || HandlerNew(h).Ok?
  }

  lemma {:induction false} FirstInvalidNone(s: string)
    requires FirstInvalid(s).None?
    ensures forall i | 0 <= i < |s| :: IsHandlerChar(s[i])
  {
    if s != "" {
      FirstInvalidNone(s[1..]);
      assert forall i | 1 <= i < |s| :: s[i] == s[1..][i - 1];
    }
  }

  lemma ValidAuthorChars(h: string)
    requires ValidAuthor(h)
    ensures h != "" && forall i | 0 <= i < |h| :: IsHandlerChar(h[i])
  {
    if h != "system" {
      FirstInvalidNone(h);
    }
  }

  // ----- the message-start pattern

  /** The zero of every decimal-digit block beyond ASCII: `\d` matches all of Unicode's Nd. */
  const ND_ZEROS: seq<int> := [
    0x660, 0x6f0, 0x7c0, 0x966, 0x9e6, 0xa66, 0xae6, 0xb66, 0xbe6, 0xc66, 0xce6, 0xd66, 0xde6,
    0xe50, 0xed0, 0xf20, 0x1040, 0x1090, 0x17e0, 0x1810, 0x1946, 0x19d0, 0x1a80, 0x1a90, 0x1b50,
    0x1bb0, 0x1c40, 0x1c50, 0xa620, 0xa8d0, 0xa900, 0xa9d0, 0xa9f0, 0xaa50, 0xabf0, 0xff10,
    0x104a0, 0x10d30, 0x11066, 0x110f0, 0x11136, 0x111d0, 0x112f0, 0x11450, 0x114d0, 0x11650,
    0x116c0, 0x11730, 0x118e0, 0x11950, 0x11c50, 0x11d50, 0x11da0, 0x16a60, 0x16ac0, 0x16b50,
    0x1d7ce, 0x1d7d8, 0x1d7e2, 0x1d7ec, 0x1d7f6, 0x1e140, 0x1e2f0, 0x1e950, 0x1fbf0
  ]

  predicate IsDigit(c: char) {
    '0' <= c <= '9' || (0x660 <= c as int && exists z | z in ND_ZEROS :: z <= c as int < z + 10)
  }

  predicate IsEventChar(c: char) {
    'a' <= c <= 'z' || '0' <= c <= '9' || c == '_' || c == '-'
  }

  predicate IsTimestamp(t: string) {
    && |t| == 16
    && (forall i | 0 <= i < 8 :: IsDigit(t[i]))
    && t[8] == 'T'
    && (forall i | 9 <= i < 15 :: IsDigit(t[i]))
    && t[15] == 'Z'
  }

  predicate IsEventType(t: string) {
    t != "" && 'a' <= t[0] <= 'z' && forall i | 0 <= i < |t| :: IsEventChar(t[i])
  }

  /** Length of the longest prefix whose characters all satisfy `p`. */
  function Span(s: string, p: char -> bool): (n: nat)
    ensures n <= |s|
    ensures forall i | 0 <= i < n :: p(s[i])
    ensures n < |s| ==> !p(s[n])
  {
    if s == "" || !p(s[0]) then 0 else 1 + Span(s[1..], p)
  }

  function FieldText(open: string, value: string, rest: string): string {
    open + value + "]" + rest
  }

  /** `open`, at least `least` characters of a class, then `]`. The class never contains `]`,
      so the greedy match is the only one. */
  function Field(s: string, open: string, p: char -> bool, least: nat): Option<(string, string)> {
    if !(open <= s) then None
    else
      var r := s[|open|..];
      var n := Span(r, p);
      if n < least || n == |r| || r[n] != ']' then None else Some((r[..n], r[n + 1..]))
  }

  datatype Header = Header(
    line: string, pointTo: string, author: string, timestamp: string,
    eventType: Option<string>, text: string)

  function Timestamp(s: string): Option<(string, string)> {
    if |s| >= 18 && s[0] == '[' && IsTimestamp(s[1..17]) && s[17] == ']'
    then Some((s[1..17], s[18..])) else None
  }

  /** The optional `[E:type]` group. Without a leading bracket the group is skipped. */
  function EventGroup(s: string): Option<(Option<string>, string)> {
    if s != "" && s[0] == '[' then
      var (t, r) :- Field(s, "[E:", IsEventChar, 1);
      if IsEventType(t) then Some((Some(t), r)) else None
    else Some((None, s))
  }

  /** `MSG_RE` on one line. */
  function MatchHeader(l: string): Option<Header> {
    var (line, r1) :- Field(l, "[L", IsDigit, 6);
    var (pointTo, r2) :- Field(r1, "[P", IsDigit, 6);
    var (author, r3) :- Field(r2, "[@", IsHandlerChar, 1);
    var (timestamp, r4) :- Timestamp(r3);
    var (eventType, r5) :- EventGroup(r4);
    if |r5| >= 2 && r5[0] == ' ' then Some(Header(line, pointTo, author, timestamp, eventType, r5[1..]))
    else None
  }

  /** `MSG_PREFIX_RE`: what the formatter escapes. */
  predicate LooksLikeStart(l: string) {
    Field(l, "[L", IsDigit, 6).Some?
  }

  // ----- entries

  datatype Entry =
    | Message(line: nat, pointTo: nat, author: string, timestamp: string, body: string)
    | Event(line: nat, pointTo: nat, author: string, timestamp: string, eventType: string, meta: string)
  {
    /** The text that follows the header: a message body, or an event's JSON. */
    function Text(): string {
      if Message? then body else meta
    }

    function WithText(t: string): Entry {
      if Message? then this.(body := t) else this.(meta := t)
    }
  }

  // ----- formatter

  function Width(line: nat): nat {
    if |Dec(line)| > 6 then |Dec(line)| else 6
  }

  function HeadText(line: nat, pointTo: nat, author: string, timestamp: string, rest: string): string {
    var w := Width(line);
    FieldText("[L", Pad(line, w),
    FieldText("[P", Pad(pointTo, w),
    FieldText("[@", author,
    FieldText("[", timestamp, rest))))
  }

  function Escape(l: string): string {
    if LooksLikeStart(l) then " " + l else l
  }

  function EscapeEach(ls: seq<string>): (r: seq<string>)
    ensures |r| == |ls|
  {
    seq(|ls|, i requires 0 <= i < |ls| => Escape(ls[i]))
  }

  /** The lines a body is written as; an empty body still owns one empty line. */
  function BodyLines(body: string): (ls: seq<string>)
    ensures |ls| >= 1
  {
    var ls := Lines(body);
    if ls == [] then [""] else ls
  }

  function MessageLines(e: Entry): (ls: seq<string>)
    requires e.Message?
    ensures |ls| >= 1
  {
    var ls := BodyLines(e.body);
    [HeadText(e.line, e.pointTo, e.author, e.timestamp, " " + ls[0])] + EscapeEach(ls[1..])
  }

  function EventLine(e: Entry): string
    requires e.Event?
  {
    HeadText(e.line, 0, e.author, e.timestamp, FieldText("[E:", e.eventType, " " + e.meta))
  }

  function EntryLines(e: Entry): (ls: seq<string>)
    ensures |ls| >= 1
  {
    if e.Message? then MessageLines(e) else [EventLine(e)]
  }

  /** `format_message` / `format_event`. */
  function Format(e: Entry): string {
    Unlines(EntryLines(e))
  }

  // ----- parser

  datatype ParseError =
    | FirstLineNotMessage(fileLine: nat)
    | InvalidHandler(fileLine: nat, error: HandlerError)
    | NumberPanic(fileLine: nat)  // the `u64` parse behind the digits panics

  predicate FitsU64(s: string) {
    Digits(s) && DecValue(s) < U64
  }

  /** The entry a message-start line opens, its text being the rest of that line. */
  function Open(h: Header, fileLine: nat): Result<Entry, ParseError> {
    if !FitsU64(h.line) || !FitsU64(h.pointTo) then Err(NumberPanic(fileLine))
    else if h.author != "system" && HandlerNew(h.author).Err?
    then Err(InvalidHandler(fileLine, HandlerNew(h.author).error))
    else Ok(
      if h.eventType.Some?
      then Event(DecValue(h.line), DecValue(h.pointTo), h.author, h.timestamp, h.eventType.value, h.text)
      else Message(DecValue(h.line), DecValue(h.pointTo), h.author, h.timestamp, h.text))
  }

  /** A continuation line loses the escape space in front of `[L`. */
  function Unescape(l: string): string {
    if " [L" <= l then l[1..] else l
  }

  function Extend(acc: seq<Entry>, l: string): (r: seq<Entry>)
    requires acc != []
    ensures |r| == |acc|
  {
    var e := Last(acc);
    Init(acc) + [e.WithText(e.Text() + "\n" + Unescape(l))]
  }

  function Step(acc: seq<Entry>, l: string, fileLine: nat): Result<seq<Entry>, ParseError> {
    match MatchHeader(l)
    case Some(h) =>
      var e :- Open(h, fileLine);
      Ok(acc + [e])
    case None =>
      if acc == [] then Err(FirstLineNotMessage(fileLine)) else Ok(Extend(acc, l))
  }

  function ParseLines(ls: seq<string>, seen: nat, acc: seq<Entry>): Result<seq<Entry>, ParseError> {
    if ls == [] then Ok(acc)
    else
      var acc' :- Step(acc, ls[0], seen + 1);
      ParseLines(ls[1..], seen + 1, acc')
  }

  function Parse(input: string): Result<seq<Entry>, ParseError> {
    ParseLines(FileLines(input), 0, [])
  }

  // ----- the source's loops

  /** The formatter's `for line in lines`: escape, push, end the line. */
  method PushContinuations(start: string, rest: seq<string>) returns (output: string)
    ensures output == start + Unlines(EscapeEach(rest))
  {
    output := start;
    ghost var escaped := EscapeEach(rest);
    assert Unlines(escaped[..0]) == "";
    hide EscapeEach, LooksLikeStart, Unlines;
    for i := 0 to |rest|
      invariant output == start + Unlines(escaped[..i])
    {
      EscapedAt(rest, i);
      UnlinesSnoc(escaped[..i], escaped[i]);
      assert escaped[..i + 1] == escaped[..i] + [escaped[i]];
      ghost var before := output;
      if LooksLikeStart(rest[i]) {
        output := output + " ";
      }
      output := output + rest[i];
      assert output == before + escaped[i];
      output := output + "\n";
      Regroup(start, Unlines(escaped[..i]), escaped[i]);
    }
    assert escaped[..|rest|] == escaped;
  }

  lemma Regroup(a: string, b: string, c: string)
    ensures a + b + c + "\n" == a + (b + c + "\n")
  {
  }

  lemma EscapedAt(ls: seq<string>, i: nat)
    requires i < |ls|
    ensures EscapeEach(ls)[i] == Escape(ls[i])
  {
  }

  method FormatMessage(line: nat, pointTo: nat, author: string, timestamp: string, body: string)
    returns (output: string)
    ensures output == Format(Message(line, pointTo, author, timestamp, body))
  {
    var ls := Lines(body);
    var first := if ls == [] then "" else ls[0];
    var head := HeadText(line, pointTo, author, timestamp, " " + first);
    output := head + "\n";
    var rest := if ls == [] then [] else ls[1..];
    output := PushContinuations(output, rest);
    var all := [head] + EscapeEach(rest);
    assert all[1..] == EscapeEach(rest);
    assert EntryLines(Message(line, pointTo, author, timestamp, body)) == all;
  }

  /** `finalize_entry`: the collected text lands in the last entry. */
  function Finalized(entries: seq<Entry>, body: Option<string>): seq<Entry> {
    if body.None? || entries == [] then entries
    else Init(entries) + [Last(entries).WithText(body.value)]
  }

  lemma ParseFrom(lines: seq<string>, i: nat, acc: seq<Entry>)
    requires i < |lines|
    ensures ParseLines(lines[i..], i, acc)
         == var s := Step(acc, lines[i], i + 1);
            if s.Ok? then ParseLines(lines[i + 1..], i + 1, s.value) else Err(s.error)
  {
    assert lines[i..][1..] == lines[i + 1..];
  }

  lemma FinalizedOpened(entries: seq<Entry>, e: Entry)
    ensures Finalized(entries + [e.WithText("")], Some(e.Text())) == entries + [e]
  {
  }

  lemma FinalizedExtended(entries: seq<Entry>, body: string, l: string)
    requires entries != []
    ensures Finalized(entries, Some(body + "\n" + Unescape(l))) == Extend(Finalized(entries, Some(body)), l)
  {
  }

  lemma FinalizedEmpty(entries: seq<Entry>, body: Option<string>)
    ensures Finalized(entries, body) == [] <==> entries == []
  {
  }

  lemma OpenText(h: Header, fileLine: nat)
    ensures Open(h, fileLine).Ok? ==> Open(h, fileLine).value.Text() == h.text
  {
    hide HandlerNew, FitsU64;
  }

  /** One turn of the parser's loop over its two variables. */
  method Consume(entries: seq<Entry>, currentBody: Option<string>, line: string, fileLine: nat)
    returns (r: Result<(seq<Entry>, Option<string>), ParseError>)
    requires currentBody.None? <==> entries == []
    ensures r.Ok? ==> r.value.0 != [] && r.value.1.Some?
    ensures Step(Finalized(entries, currentBody), line, fileLine)
         == if r.Ok? then Ok(Finalized(r.value.0, r.value.1)) else Err(r.error)
  {
    hide MatchHeader, Open, Finalized, Extend, Unescape;
    FinalizedEmpty(entries, currentBody);
    var caps := MatchHeader(line);
    if caps.Some? {
      var closed := Finalized(entries, currentBody);
      var entry := Open(caps.value, fileLine);
      if entry.Err? {
        return Err(entry.error);
      }
      OpenText(caps.value, fileLine);
      FinalizedOpened(closed, entry.value);
      return Ok((closed + [entry.value.WithText("")], Some(caps.value.text)));
    }
    if entries == [] {
      return Err(FirstLineNotMessage(fileLine));
    }
    FinalizedExtended(entries, currentBody.value, line);
    return Ok((entries, Some(currentBody.value + "\n" + Unescape(line))));
  }

  method ParseThread(input: string) returns (r: Result<seq<Entry>, ParseError>)
    ensures r == Parse(input)
  {
    var lines := FileLines(input);
    var entries: seq<Entry> := [];
    var currentBody: Option<string> := None;
    ghost var parsed := Parse(input);
    assert lines[0..] == lines;
    for i := 0 to |lines|
      invariant currentBody.None? <==> entries == []
      invariant parsed == ParseLines(lines[i..], i, Finalized(entries, currentBody))
    {
      ParseFrom(lines, i, Finalized(entries, currentBody));
      var next := Consume(entries, currentBody, lines[i], i + 1);
      if next.Err? {
        return Err(next.error);
      }
      entries, currentBody := next.value.0, next.value.1;
    }
    r := Ok(Finalized(entries, currentBody));
  }

  /** The parser blames a missing message start on line 1 or on no line at all: blank leading
      lines are rejected, not skipped. */
  lemma {:induction false} OnlyTheFirstLineCanBeHeadless(ls: seq<string>, seen: nat, acc: seq<Entry>)
    requires seen > 0 ==> acc != []
    ensures var r := ParseLines(ls, seen, acc);
      r.Err? && r.error.FirstLineNotMessage? ==> r.error.fileLine == 1
  {
    if ls != [] {
      var s := Step(acc, ls[0], seen + 1);
      if s.Ok? {
        OnlyTheFirstLineCanBeHeadless(ls[1..], seen + 1, s.value);
      }
    }
  }

  /** The parser refuses a file for want of a message start exactly when its first line is not one. */
  lemma HeadlessExactly(s: string)
    ensures var r := Parse(s);
      && ((r.Err? && r.error.FirstLineNotMessage?) <==> (FileLines(s) != [] && MatchHeader(FileLines(s)[0]).None?))
      && (r.Err? && r.error.FirstLineNotMessage? ==> r.error.fileLine == 1)
  {
    hide MatchHeader, FileLines, Open;
    var ls := FileLines(s);
    OnlyTheFirstLineCanBeHeadless(ls, 0, []);
    if ls != [] && MatchHeader(ls[0]).Some? {
      var first := Step([], ls[0], 1);
      if first.Ok? {
        OnceOpenedNeverHeadless(ls[1..], 1, first.value);
      } else {
        OpenNeverHeadless(MatchHeader(ls[0]).value, 1);
      }
    }
  }

  lemma OpenNeverHeadless(h: Header, fileLine: nat)
    ensures Open(h, fileLine).Err? ==> !Open(h, fileLine).error.FirstLineNotMessage?
  {
    hide HandlerNew, FitsU64;
  }

  lemma {:induction false} OnceOpenedNeverHeadless(ls: seq<string>, seen: nat, acc: seq<Entry>)
    requires acc != []
    ensures var r := ParseLines(ls, seen, acc); r.Err? ==> !r.error.FirstLineNotMessage?
  {
    hide MatchHeader, Open;
    if ls != [] {
      var s := Step(acc, ls[0], seen + 1);
      if s.Ok? {
        OnceOpenedNeverHeadless(ls[1..], seen + 1, s.value);
      } else {
        OpenNeverHeadless(MatchHeader(ls[0]).value, seen + 1);
      }
    }
  }

  /** So a leading blank line is refused whatever follows, not skipped. */
  lemma LeadingBlankLineIsRefused(rest: string)
    ensures Parse("\n" + rest) == Err(FirstLineNotMessage(1))
  {
    FileLinesConcat("\n", rest);
    BlankLine();
    hide FileLines;
    var ls := FileLines("\n" + rest);
    assert ls[0] == "" && MatchHeader("").None?;
  }

  lemma BlankLine()
    ensures FileLines("\n") == [""] && Terminated("\n")
  {
    assert "\n" == "" + "\n" + "";
    FileLinesForm("\n");
    SplitLine("", "");
    assert Split("\n") == ["", ""];
    assert Init(["", ""]) == [""] && Chomp2("") == "";
    assert Chomp2Each([""]) == [""];
  }
}
