/** The text of a thread file in characters: what the formatter writes, which lines it escapes, and which
    lines the parser takes for the start of an entry. */
module ThreadText {
  import opened Results
  import opened Text
  import opened Thread
  import opened ThreadFraming

  // ----- numerals

  /** The decimal numeral of a number: digits, no leading zero. */
  predicate IsNumeral(s: string, n: nat) {
    s != "" && Digits(s) && (|s| > 1 ==> s[0] != '0') && DecValue(s) == n
  }

  lemma {:induction false} DecIsNumeral(n: nat)
    ensures IsNumeral(Dec(n), n)
  {
    DecRoundTrip(n);
    if n >= 10 {
      DecIsNumeral(n / 10);
      var d := Dec(n / 10);
      assert Dec(n)[0] == d[0];
      if |d| == 1 {
        assert d[..0] == "" && DecValue(d) == (d[0] - '0') as nat;
      }
    }
  }

  lemma {:induction false} NumeralPositive(s: string, n: nat)
    requires IsNumeral(s, n) && |s| > 1
    ensures n >= 10 && IsNumeral(s[..|s| - 1], n / 10) && n % 10 == (s[|s| - 1] - '0') as nat
  {
    var p := s[..|s| - 1];
    if |p| > 1 {
      NumeralPositive(p, DecValue(p));
    } else {
      assert p[..0] == "";
    }
  }

  /** A number has one numeral. */
  lemma {:induction false} NumeralIsDec(s: string, n: nat)
    requires IsNumeral(s, n)
    ensures s == Dec(n)
  {
    if |s| == 1 {
      assert s[..0] == "";
      assert s == [s[0]];
    } else {
      NumeralPositive(s, n);
      NumeralIsDec(s[..|s| - 1], n / 10);
      assert s == s[..|s| - 1] + [s[|s| - 1]];
    }
  }

  // ----- what is written

  function Fill(d: string, width: nat): string {
    if |d| >= width then d else seq(width - |d|, _ => '0') + d
  }

  lemma FillIsPad(n: nat, width: nat)
    ensures Fill(Dec(n), width) == Pad(n, width)
  {
    if |Dec(n)| < width {
      assert seq(width - |Dec(n)|, _ => '0') == Zeros(width - |Dec(n)|);
    }
  }

  /** `[L`, six or more digits, `]`, and anything. */
  predicate StartsLikeMessage(l: string) {
    exists n | 8 <= n < |l| :: l[0] == '[' && l[1] == 'L' && l[n] == ']' && forall i | 2 <= i < n :: IsDigit(l[i])
  }

  lemma StartExactly(l: string)
    ensures LooksLikeStart(l) <==> StartsLikeMessage(l)
  {
    hide IsDigit;
    if "[L" <= l {
      var r := l[2..];
      var n := Span(r, IsDigit);
      assert forall i | 2 <= i < n + 2 :: l[i] == r[i - 2];
      if LooksLikeStart(l) {
        assert l[n + 2] == r[n] == ']';
      }
      if m :| 8 <= m < |l| && l[0] == '[' && l[1] == 'L' && l[m] == ']' && forall i | 2 <= i < m :: IsDigit(l[i]) {
        BracketIsNoDigit();
        assert r[m - 2] == ']' && forall i | 0 <= i < m - 2 :: r[i] == l[i + 2];
        assert n == m - 2;
      }
    }
  }

  lemma BracketIsNoDigit()
    ensures !IsDigit(']')
  {
  }

  /** Continuation lines as written: a space in front of exactly those that start like a message. */
  function Continued(ls: seq<string>): string {
    if ls == [] then "" else (if StartsLikeMessage(ls[0]) then " " else "") + ls[0] + "\n" + Continued(ls[1..])
  }

  lemma {:induction false} ContinuedIsEscaped(ls: seq<string>)
    ensures Unlines(EscapeEach(ls)) == Continued(ls)
  {
    hide LooksLikeStart, StartsLikeMessage;
    if ls != [] {
      StartExactly(ls[0]);
      assert EscapeEach(ls)[0] == Escape(ls[0]) && EscapeEach(ls)[1..] == EscapeEach(ls[1..]);
      ContinuedIsEscaped(ls[1..]);
      assert "" + ls[0] == ls[0];
    }
  }

  lemma FlatHead(d: string, e: string, author: string, timestamp: string, rest: string)
    ensures FieldText("[L", d, FieldText("[P", e, FieldText("[@", author, FieldText("[", timestamp, rest))))
         == "[L" + d + "][P" + e + "][@" + author + "][" + timestamp + "]" + rest
  {
    var t := "[" + timestamp + "]" + rest;
    var a := "[@" + author + "]" + t;
    var p := "[P" + e + "]" + a;
    assert "]" + "[P" == "][P" && "]" + "[@" == "][@" && "]" + "[" == "][";
    assert a == "[@" + author + "][" + timestamp + "]" + rest;
    assert p == "[P" + e + "][@" + author + "][" + timestamp + "]" + rest;
    assert "[L" + d + "]" + p == "[L" + d + "][P" + e + "][@" + author + "][" + timestamp + "]" + rest;
  }

  /** A written message, character by character: both numbers are padded to six places or to the length of
      the line number, whichever is more; then author, timestamp, a space, the first body line, and the
      other body lines, those and only those that start like a message behind one space. */
  lemma MessageText(line: nat, pointTo: nat, author: string, timestamp: string, body: string, d: string, e: string)
    requires IsNumeral(d, line) && IsNumeral(e, pointTo)
    ensures var w := if |d| > 6 then |d| else 6;
      var ls := Lines(body);
      Format(Message(line, pointTo, author, timestamp, body))
      == "[L" + Fill(d, w) + "][P" + Fill(e, w) + "][@" + author + "][" + timestamp + "]"
         + (" " + (if ls == [] then "" else ls[0])) + "\n" + Continued(if ls == [] then [] else ls[1..])
  {
    var w := if |d| > 6 then |d| else 6;
    NumeralIsDec(d, line);
    NumeralIsDec(e, pointTo);
    FillIsPad(line, w);
    FillIsPad(pointTo, w);
    var ls := BodyLines(body);
    FlatHead(Fill(d, w), Fill(e, w), author, timestamp, " " + ls[0]);
    ContinuedIsEscaped(ls[1..]);
    hide FieldText, Fill, Pad, Dec, LooksLikeStart, Continued, EscapeEach, Lines;
    UnlinesCons(HeadText(line, pointTo, author, timestamp, " " + ls[0]), EscapeEach(ls[1..]));
  }

  lemma UnlinesCons(l: string, ls: seq<string>)
    ensures Unlines([l] + ls) == l + "\n" + Unlines(ls)
  {
    assert ([l] + ls)[1..] == ls;
  }

  /** A written event: the same head with a zero target, the event type, and the JSON on one line. */
  lemma EventText(line: nat, pointTo: nat, author: string, timestamp: string, eventType: string, meta: string, d: string)
    requires IsNumeral(d, line)
    ensures var w := if |d| > 6 then |d| else 6;
      Format(Event(line, pointTo, author, timestamp, eventType, meta))
      == "[L" + Fill(d, w) + "][P" + seq(w, _ => '0') + "][@" + author + "][" + timestamp + "]"
         + ("[E:" + eventType + "]" + (" " + meta)) + "\n"
  {
    var w := if |d| > 6 then |d| else 6;
    NumeralIsDec(d, line);
    FillIsPad(line, w);
    FillIsPad(0, w);
    assert Fill(Dec(0), w) == seq(w, _ => '0') by {
      assert Dec(0) == "0";
    }
    FlatHead(Fill(d, w), Fill(Dec(0), w), author, timestamp, "[E:" + eventType + "]" + (" " + meta));
    hide Fill, Pad, Dec;
    var l := EventLine(Event(line, pointTo, author, timestamp, eventType, meta));
    UnlinesCons(l, []);
    assert [l] + [] == [l] && Unlines([]) == "";
  }

  /** `format_message` writes that text. */
  method WriteMessage(line: nat, pointTo: nat, author: string, timestamp: string, body: string) returns (output: string)
    ensures var d, e, ls := Dec(line), Dec(pointTo), Lines(body);
      var w := if |d| > 6 then |d| else 6;
      output == "[L" + Fill(d, w) + "][P" + Fill(e, w) + "][@" + author + "][" + timestamp + "]"
                + (" " + (if ls == [] then "" else ls[0])) + "\n" + Continued(if ls == [] then [] else ls[1..])
  {
    output := FormatMessage(line, pointTo, author, timestamp, body);
    DecIsNumeral(line);
    DecIsNumeral(pointTo);
    hide Dec, Lines, Fill, Continued, Format;
    MessageText(line, pointTo, author, timestamp, body, Dec(line), Dec(pointTo));
  }

  // ----- what is read

  /** The text of an entry's first line. */
  function StartText(h: Header): string {
    "[L" + h.line + "][P" + h.pointTo + "][@" + h.author + "][" + h.timestamp + "]"
    + ((if h.eventType.Some? then "[E:" + h.eventType.value + "]" else "") + (" " + h.text))
  }

  /** The character classes of its parts. */
  predicate WellFormed(h: Header) {
    && |h.line| >= 6 && (forall i | 0 <= i < |h.line| :: IsDigit(h.line[i]))
    && |h.pointTo| >= 6 && (forall i | 0 <= i < |h.pointTo| :: IsDigit(h.pointTo[i]))
    && h.author != "" && (forall i | 0 <= i < |h.author| :: IsHandlerChar(h.author[i]))
    && IsTimestamp(h.timestamp)
    && (h.eventType.Some? ==> IsEventType(h.eventType.value))
    && h.text != ""
  }

  lemma FieldInverse(s: string, open: string, p: char -> bool, least: nat)
    requires Field(s, open, p, least).Some?
    ensures var f := Field(s, open, p, least).value;
      s == FieldText(open, f.0, f.1) && |f.0| >= least && forall i | 0 <= i < |f.0| :: p(f.0[i])
  {
    var r := s[|open|..];
    var n := Span(r, p);
    assert r == r[..n] + "]" + r[n + 1..];
    assert s == open + r;
  }

  lemma TimestampInverse(s: string)
    requires Timestamp(s).Some?
    ensures s == FieldText("[", Timestamp(s).value.0, Timestamp(s).value.1) && IsTimestamp(Timestamp(s).value.0)
  {
    assert s == [s[0]] + s[1..17] + [s[17]] + s[18..];
  }

  lemma EventGroupInverse(s: string)
    requires EventGroup(s).Some?
    ensures var g := EventGroup(s).value;
      && s == (if g.0.Some? then "[E:" + g.0.value + "]" else "") + g.1
      && (g.0.Some? ==> IsEventType(g.0.value))
  {
    if s != "" && s[0] == '[' {
      FieldInverse(s, "[E:", IsEventChar, 1);
    } else {
      assert "" + s == s;
    }
  }

  lemma HeaderReads(l: string)
    requires MatchHeader(l).Some?
    ensures WellFormed(MatchHeader(l).value) && l == StartText(MatchHeader(l).value)
  {
    hide Field, Timestamp, EventGroup, IsTimestamp, IsEventType, IsDigit, IsHandlerChar, FieldText;
    var h := MatchHeader(l).value;
    var r1 := Field(l, "[L", IsDigit, 6).value.1;
    FieldInverse(l, "[L", IsDigit, 6);
    var r2 := Field(r1, "[P", IsDigit, 6).value.1;
    FieldInverse(r1, "[P", IsDigit, 6);
    var r3 := Field(r2, "[@", IsHandlerChar, 1).value.1;
    FieldInverse(r2, "[@", IsHandlerChar, 1);
    var r4 := Timestamp(r3).value.1;
    TimestampInverse(r3);
    var r5 := EventGroup(r4).value.1;
    EventGroupInverse(r4);
    assert r5 == " " + h.text;
    FlatHead(h.line, h.pointTo, h.author, h.timestamp, r4);
  }

  lemma HeaderWritten(h: Header)
    requires WellFormed(h)
    ensures MatchHeader(StartText(h)) == Some(h)
  {
    var tail := (if h.eventType.Some? then "[E:" + h.eventType.value + "]" else "") + (" " + h.text);
    TailReads(h, tail);
    FlatHead(h.line, h.pointTo, h.author, h.timestamp, tail);
    ClassesExclude();
    hide Field, Timestamp, EventGroup, IsTimestamp, IsEventType, IsDigit, IsHandlerChar, FieldText;
    var s4 := FieldText("[", h.timestamp, tail);
    TimestampExact(h.timestamp, tail);
    var s3 := FieldText("[@", h.author, s4);
    FieldExact("[@", h.author, s4, IsHandlerChar, 1);
    var s2 := FieldText("[P", h.pointTo, s3);
    FieldExact("[P", h.pointTo, s3, IsDigit, 6);
    FieldExact("[L", h.line, s2, IsDigit, 6);
  }

  lemma ClassesExclude()
    ensures !IsDigit(']') && !IsHandlerChar(']') && !IsEventChar(']')
  {
  }

  lemma TailReads(h: Header, tail: string)
    requires WellFormed(h) && tail == (if h.eventType.Some? then "[E:" + h.eventType.value + "]" else "") + (" " + h.text)
    ensures EventGroup(tail) == Some((h.eventType, " " + h.text))
    ensures |" " + h.text| >= 2 && (" " + h.text)[0] == ' ' && (" " + h.text)[1..] == h.text
  {
    hide IsTimestamp, IsDigit;
    if h.eventType.Some? {
      JsonGroup(h.eventType.value, h.text);
    } else {
      PlainGroup(h.text);
      assert tail == " " + h.text;
    }
  }

  /** The parser takes a line for the start of an entry exactly when the line is one, and then reads exactly
      its parts. */
  lemma StartsExactly(l: string, h: Header)
    ensures MatchHeader(l) == Some(h) <==> WellFormed(h) && l == StartText(h)
  {
    hide MatchHeader, WellFormed, StartText;
    if MatchHeader(l).Some? {
      HeaderReads(l);
    }
    if WellFormed(h) && l == StartText(h) {
      HeaderWritten(h);
    }
  }

  // ----- handlers

  /** A name can be registered exactly if it has 1 to 39 characters from `a` to `z`, `0` to `9` and `-`, no
      hyphen at either end or next to another, and is not the daemon's own. */
  lemma HandlerExactly(s: string)
    ensures HandlerNew(s).Ok? <==>
      && 1 <= |s| <= 39 && s != "system"
      && (forall i | 0 <= i < |s| :: 'a' <= s[i] <= 'z' || '0' <= s[i] <= '9' || s[i] == '-')
      && s[0] != '-' && s[|s| - 1] != '-' && (forall i | 0 < i < |s| :: !(s[i - 1] == '-' && s[i] == '-'))
  {
    InvalidExactly(s);
    hide FirstInvalid;
    if forall i | 0 < i < |s| :: !(s[i - 1] == '-' && s[i] == '-') {
      assert forall i | 0 <= i < |s| - 1 :: !(s[i] == '-' && s[i + 1] == '-') by {
        forall i | 0 <= i < |s| - 1 ensures !(s[i] == '-' && s[i + 1] == '-') {
          assert !(s[i + 1 - 1] == '-' && s[i + 1] == '-');
        }
      }
    } else {
      var i :| 0 < i < |s| && s[i - 1] == '-' && s[i] == '-';
      assert s[i - 1] == '-' && s[i - 1 + 1] == '-';
    }
  }

  lemma {:induction false} InvalidExactly(s: string)
    ensures FirstInvalid(s).None? <==> forall i | 0 <= i < |s| :: 'a' <= s[i] <= 'z' || '0' <= s[i] <= '9' || s[i] == '-'
  {
    if s != "" {
      InvalidExactly(s[1..]);
      assert forall i | 1 <= i < |s| :: s[i] == s[1..][i - 1];
    }
  }
}
