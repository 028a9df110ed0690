/** Filenames that carry meaning: the instant in a cron thread's name, the two people in a DM's. */
module Filenames {
  import opened Results
  import opened Lexicographic
  import opened Thread
  import Text

  // ----- cron stems

  /** A UTC instant to the second, as calendar fields. */
  datatype Fields = Fields(year: nat, month: nat, day: nat, hour: nat, minute: nat, second: nat)

  predicate Leap(year: nat) {
    year % 4 == 0 && (year % 100 != 0 || year % 400 == 0)
  }

  function DaysIn(year: nat, month: nat): (n: nat)
    ensures n <= 31
  {
    if month == 2 then (if Leap(year) then 29 else 28)
    else if month in {4, 6, 9, 11} then 30
    else 31
  }

  predicate Valid(f: Fields) {
    && f.year <= 9999 && 1 <= f.month <= 12 && 1 <= f.day <= DaysIn(f.year, f.month)
    && f.hour < 24 && f.minute < 60 && f.second < 60
  }

  function Two(n: nat): (s: string)
    requires n < 100
    ensures |s| == 2
  {
    [Text.Digit(n / 10), Text.Digit(n % 10)]
  }

  function Four(n: nat): (s: string)
    requires n < 10000
    ensures |s| == 4
  {
    Two(n / 100) + Two(n % 100)
  }

  /** Section 5.6 of RFC 3339, to the second, in UTC. */
  function Rfc3339(f: Fields): string
    requires Valid(f)
  {
    Date(f) + "T" + Time(f, ':')
  }

  function Date(f: Fields): (s: string)
    requires Valid(f)
    ensures |s| == 10
  {
    Four(f.year) + "-" + Two(f.month) + "-" + Two(f.day)
  }

  function Time(f: Fields, sep: char): (s: string)
    requires Valid(f)
    ensures |s| == 9
  {
    Two(f.hour) + [sep] + Two(f.minute) + [sep] + Two(f.second) + "Z"
  }

  function Replace(s: string, from: char, to: char): (r: string)
    ensures |r| == |s|
  {
    seq(|s|, i requires 0 <= i < |s| => if s[i] == from then to else s[i])
  }

  /** `format_thread_filename_ts`. */
  function Stem(f: Fields): string
    requires Valid(f)
  {
    Replace(Rfc3339(f), ':', '-')
  }

  predicate IsTwo(s: string, i: nat)
    requires i + 2 <= |s|
  {
    '0' <= s[i] <= '9' && '0' <= s[i + 1] <= '9'
  }

  function TwoAt(s: string, i: nat): nat
    requires i + 2 <= |s| && IsTwo(s, i)
  {
    10 * (s[i] - '0') as nat + (s[i + 1] - '0') as nat
  }

  /** The parser on the canonical shape `YYYY-MM-DDTHH:MM:SSZ`. */
  function ParseRfc3339(s: string): Option<Fields> {
    if |s| == 20 && IsTwo(s, 0) && IsTwo(s, 2) && s[4] == '-' && IsTwo(s, 5) && s[7] == '-' && IsTwo(s, 8)
       && s[10] == 'T' && IsTwo(s, 11) && s[13] == ':' && IsTwo(s, 14) && s[16] == ':' && IsTwo(s, 17) && s[19] == 'Z'
    then
      var f := Fields(100 * TwoAt(s, 0) + TwoAt(s, 2), TwoAt(s, 5), TwoAt(s, 8), TwoAt(s, 11), TwoAt(s, 14), TwoAt(s, 17));
      if Valid(f) then Some(f) else None
    else None
  }

  function SplitOnce(s: string, c: char): Option<(string, string)> {
    if s == "" then None
    else if s[0] == c then Some(("", s[1..]))
    else
      var (a, b) :- SplitOnce(s[1..], c);
      Some(([s[0]] + a, b))
  }

  /** `parse_thread_filename_ts`: colons come back in the time part only. */
  function ParseStem(stem: string): Option<Fields> {
    var (date, time) :- SplitOnce(stem, 'T');
    ParseRfc3339(date + "T" + Replace(time, '-', ':'))
  }

  predicate Lacks(s: string, c: char) {
    forall i | 0 <= i < |s| :: s[i] != c
  }

  lemma {:induction false} SplitOnceAt(a: string, c: char, b: string)
    requires Lacks(a, c)
    ensures SplitOnce(a + [c] + b, c) == Some((a, b))
  {
    var s := a + [c] + b;
    if a == "" {
      assert s[0] == c && s[1..] == b;
    } else {
      SplitOnceAt(a[1..], c, b);
      assert s[1..] == a[1..] + [c] + b;
      assert [a[0]] + a[1..] == a;
    }
  }

  lemma ReplaceConcat(a: string, b: string, from: char, to: char)
    ensures Replace(a + b, from, to) == Replace(a, from, to) + Replace(b, from, to)
  {
  }

  lemma ReplaceNothing(a: string, from: char, to: char)
    requires Lacks(a, from)
    ensures Replace(a, from, to) == a
  {
  }

  lemma TwoIs(n: nat)
    requires n < 100
    ensures var s := Two(n);
      && '0' <= s[0] <= '9' && '0' <= s[1] <= '9'
      && 10 * (s[0] - '0') as nat + (s[1] - '0') as nat == n
  {
  }

  lemma DateChars(f: Fields)
    requires Valid(f)
    ensures Lacks(Date(f), 'T') && Lacks(Date(f), ':')
  {
    TwoIs(f.year / 100);
    TwoIs(f.year % 100);
    TwoIs(f.month);
    TwoIs(f.day);
    hide Two;
  }

  lemma TimeSeparators(f: Fields)
    requires Valid(f)
    ensures Replace(Time(f, ':'), ':', '-') == Time(f, '-')
    ensures Replace(Time(f, '-'), '-', ':') == Time(f, ':')
  {
    TwoIs(f.hour);
    TwoIs(f.minute);
    TwoIs(f.second);
    hide Two;
  }

  lemma StemForm(f: Fields)
    requires Valid(f)
    ensures Stem(f) == Date(f) + "T" + Time(f, '-')
  {
    DateChars(f);
    TimeSeparators(f);
    hide Date, Time;
    ReplaceConcat(Date(f) + "T", Time(f, ':'), ':', '-');
    ReplaceConcat(Date(f), "T", ':', '-');
    ReplaceNothing(Date(f), ':', '-');
    ReplaceNothing("T", ':', '-');
  }

  lemma TwoParses(s: string, i: nat, n: nat)
    requires i + 2 <= |s| && n < 100 && s[i..i + 2] == Two(n)
    ensures IsTwo(s, i) && TwoAt(s, i) == n
  {
    TwoIs(n);
    hide Two;
    assert s[i] == s[i..i + 2][0] && s[i + 1] == s[i..i + 2][1];
  }

  lemma DatePieces(f: Fields, s: string)
    requires Valid(f) && |s| == 20 && s[..10] == Date(f)
    ensures s[0..2] == Two(f.year / 100) && s[2..4] == Two(f.year % 100) && s[5..7] == Two(f.month) && s[8..10] == Two(f.day)
    ensures s[4] == '-' && s[7] == '-'
  {
    hide Two, DaysIn;
    var d := Date(f);
    assert d[0..2] == Two(f.year / 100) && d[2..4] == Two(f.year % 100) && d[5..7] == Two(f.month) && d[8..10] == Two(f.day);
    assert s[0..2] == d[0..2] && s[2..4] == d[2..4] && s[5..7] == d[5..7] && s[8..10] == d[8..10];
  }

  lemma TimePieces(f: Fields, s: string)
    requires Valid(f) && |s| == 20 && s[11..] == Time(f, ':')
    ensures s[11..13] == Two(f.hour) && s[14..16] == Two(f.minute) && s[17..19] == Two(f.second)
    ensures s[13] == ':' && s[16] == ':' && s[19] == 'Z'
  {
    hide Two, DaysIn;
    var t := Time(f, ':');
    assert t[0..2] == Two(f.hour) && t[3..5] == Two(f.minute) && t[6..8] == Two(f.second);
    assert s[11..13] == t[0..2] && s[14..16] == t[3..5] && s[17..19] == t[6..8];
    assert s[13] == t[2] && s[16] == t[5] && s[19] == t[8];
  }

  lemma RfcParses(f: Fields)
    requires Valid(f)
    ensures ParseRfc3339(Rfc3339(f)) == Some(f)
  {
    hide Two, IsTwo, TwoAt, Date, Time, DaysIn;
    var s := Rfc3339(f);
    DatePieces(f, s);
    TimePieces(f, s);
    TwoParses(s, 0, f.year / 100);
    TwoParses(s, 2, f.year % 100);
    TwoParses(s, 5, f.month);
    TwoParses(s, 8, f.day);
    TwoParses(s, 11, f.hour);
    TwoParses(s, 14, f.minute);
    TwoParses(s, 17, f.second);
  }

  /** The two decimal digits of `n` at position `i`. */
  predicate HasTwo(s: string, i: nat, n: nat) {
    i + 2 <= |s| && n < 100 && s[i] == '0' + (n / 10) as char && s[i + 1] == '0' + (n % 10) as char
  }

  lemma TwoHas(s: string, i: nat, n: nat)
    requires i + 2 <= |s| && n < 100 && s[i..i + 2] == Two(n)
    ensures HasTwo(s, i, n)
  {
    assert s[i] == s[i..i + 2][0] && s[i + 1] == s[i..i + 2][1];
  }

  /** The stem is `YYYY-MM-DDTHH-MM-SSZ`, character by character. */
  lemma StemText(f: Fields)
    requires Valid(f)
    ensures var s := Stem(f);
      && |s| == 20
      && HasTwo(s, 0, f.year / 100) && HasTwo(s, 2, f.year % 100) && s[4] == '-' && HasTwo(s, 5, f.month) && s[7] == '-'
      && HasTwo(s, 8, f.day) && s[10] == 'T' && HasTwo(s, 11, f.hour) && s[13] == '-' && HasTwo(s, 14, f.minute)
      && s[16] == '-' && HasTwo(s, 17, f.second) && s[19] == 'Z'
  {
    StemForm(f);
    hide Stem;
    var s, t := Stem(f), Time(f, '-');
    DatePieces(f, s);
    assert s[11..] == t && s[10] == 'T';
    hide Two, Date, HasTwo, DaysIn;
    assert t[0..2] == Two(f.hour) && t[3..5] == Two(f.minute) && t[6..8] == Two(f.second);
    assert s[11..13] == t[0..2] && s[14..16] == t[3..5] && s[17..19] == t[6..8];
    assert s[13] == t[2] && s[16] == t[5] && s[19] == t[8];
    TwoHas(s, 0, f.year / 100);
    TwoHas(s, 2, f.year % 100);
    TwoHas(s, 5, f.month);
    TwoHas(s, 8, f.day);
    TwoHas(s, 11, f.hour);
    TwoHas(s, 14, f.minute);
    TwoHas(s, 17, f.second);
  }

  /** Every whole second of the years 0000 to 9999 survives the trip through a filename. */
  lemma StemRoundTrip(f: Fields)
    requires Valid(f)
    ensures ParseStem(Stem(f)) == Some(f)
  {
    StemForm(f);
    DateChars(f);
    hide Date, Time, Stem, ParseRfc3339;
    SplitOnceAt(Date(f), 'T', Time(f, '-'));
    TimeSeparators(f);
    RfcParses(f);
  }

  /** Chronological order. */
  predicate Before(a: Fields, b: Fields) {
    a.year < b.year || (a.year == b.year && (a.month < b.month || (a.month == b.month &&
    (a.day < b.day || (a.day == b.day && (a.hour < b.hour || (a.hour == b.hour &&
    (a.minute < b.minute || (a.minute == b.minute && a.second < b.second)))))))))
  }

  lemma TwoOrder(m: nat, n: nat)
    requires m < 100 && n < 100
    ensures Less(Two(m), Two(n)) <==> m < n
    ensures Two(m) == Two(n) <==> m == n
  {
    var a, b := Two(m), Two(n);
    assert a[1..][1..] == "" && b[1..][1..] == "";
    assert a[1..][0] == a[1] && b[1..][0] == b[1];
    assert Less(a[1..], b[1..]) <==> a[1] < b[1];
    TwoIs(m);
    TwoIs(n);
  }

  /** Sorting filenames sorts fires: lexicographic order of stems is chronological order. */
  lemma StemOrder(a: Fields, b: Fields)
    requires Valid(a) && Valid(b)
    ensures Less(Stem(a), Stem(b)) <==> Before(a, b)
  {
    StemForm(a);
    StemForm(b);
    DateOrder(a, b);
    TimeOrder(a, b);
    hide Date, Time, Stem, Less;
    LessConcat(Date(a) + "T", Time(a, '-'), Date(b) + "T", Time(b, '-'));
    LessConcat(Date(a), "T", Date(b), "T");
    Irreflexive("T");
    assert (Date(a) + "T")[..10] == Date(a) && (Date(b) + "T")[..10] == Date(b);
  }

  lemma Irreflexive(s: string)
    ensures !Less(s, s)
  {
    LessIrreflexive(s);
  }

  predicate DateBefore(a: Fields, b: Fields) {
    a.year < b.year || (a.year == b.year && (a.month < b.month || (a.month == b.month && a.day < b.day)))
  }

  lemma DateOrder(a: Fields, b: Fields)
    requires Valid(a) && Valid(b)
    ensures Less(Date(a), Date(b)) <==> DateBefore(a, b)
    ensures Date(a) == Date(b) <==> a.year == b.year && a.month == b.month && a.day == b.day
  {
    hide Less, Two, DaysIn;
    var ya, yb := Four(a.year), Four(b.year);
    FourOrder(a.year, b.year);
    TwoOrder(a.month, b.month);
    TwoOrder(a.day, b.day);
    Joined(ya, Two(a.month), yb, Two(b.month), '-');
    Joined(ya + "-" + Two(a.month), Two(a.day), yb + "-" + Two(b.month), Two(b.day), '-');
  }

  /** Equal-length pieces joined by a separator compare piece by piece. */
  lemma Joined(a: string, x: string, b: string, y: string, sep: char)
    requires |a| == |b|
    ensures Less(a + [sep] + x, b + [sep] + y) <==> Less(a, b) || (a == b && Less(x, y))
    ensures a + [sep] + x == b + [sep] + y <==> a == b && x == y
  {
    LessConcat(a + [sep], x, b + [sep], y);
    LessConcat(a, [sep], b, [sep]);
    Irreflexive([sep]);
    hide Less;
    assert (a + [sep])[..|a|] == a && (b + [sep])[..|b|] == b;
    assert (a + [sep] + x)[|a| + 1..] == x && (b + [sep] + y)[|b| + 1..] == y;
    assert (a + [sep] + x)[..|a|] == a && (b + [sep] + y)[..|b|] == b;
  }

  lemma FourOrder(m: nat, n: nat)
    requires m < 10000 && n < 10000
    ensures Less(Four(m), Four(n)) <==> m < n
    ensures Four(m) == Four(n) <==> m == n
  {
    TwoOrder(m / 100, n / 100);
    TwoOrder(m % 100, n % 100);
    LessConcat(Two(m / 100), Two(m % 100), Two(n / 100), Two(n % 100));
    hide Less, Two;
    assert Four(m)[..2] == Two(m / 100) && Four(n)[..2] == Two(n / 100);
    assert Four(m)[2..] == Two(m % 100) && Four(n)[2..] == Two(n % 100);
  }

  lemma TimeOrder(a: Fields, b: Fields)
    requires Valid(a) && Valid(b)
    ensures Less(Time(a, '-'), Time(b, '-'))
      <==> a.hour < b.hour || (a.hour == b.hour && (a.minute < b.minute || (a.minute == b.minute && a.second < b.second)))
  {
    hide Less, Two, DaysIn;
    TwoOrder(a.hour, b.hour);
    TwoOrder(a.minute, b.minute);
    TwoOrder(a.second, b.second);
    var ha, hb := Two(a.hour), Two(b.hour);
    var ma, mb := ha + ['-'] + Two(a.minute), hb + ['-'] + Two(b.minute);
    Joined(ha, Two(a.minute), hb, Two(b.minute), '-');
    Joined(ma, Two(a.second), mb, Two(b.second), '-');
    LessConcat(ma + ['-'] + Two(a.second), "Z", mb + ['-'] + Two(b.second), "Z");
    Irreflexive("Z");
  }

  // ----- DM stems

  predicate Precedes(a: string, b: string) {
    a == b || Less(a, b)
  }

  /** `dm_filename`. */
  function DmStem(a: string, b: string): string {
    if Precedes(a, b) then a + "--" + b else b + "--" + a
  }

  function FindDashes(s: string): Option<nat> {
    if |s| < 2 then None
    else if s[0] == '-' && s[1] == '-' then Some(0)
    else
      var i :- FindDashes(s[1..]);
      Some(i + 1)
  }

  lemma {:induction false} FindDashesBound(s: string)
    ensures FindDashes(s).Some? ==> FindDashes(s).value + 2 <= |s|
  {
    if |s| >= 2 {
      FindDashesBound(s[1..]);
    }
  }

  /** `parse_dm_filename`. */
  function ParseDm(stem: string): Option<(string, string)> {
    var i :- FindDashes(stem);
    FindDashesBound(stem);
    var first, second := stem[..i], stem[i + 2..];
    if first == "" || second == "" then None else Some((first, second))
  }

  /** What a handler promises: no double hyphen, no hyphen at either end. */
  predicate Plain(h: string) {
    h != "" && h[|h| - 1] != '-' && h[0] != '-' && !HasDoubleHyphen(h)
  }

  lemma ValidIsPlain(h: string)
    requires ValidAuthor(h)
    ensures Plain(h)
  {
  }

  lemma {:induction false} DashesAfter(a: string, b: string)
    requires !HasDoubleHyphen(a) && (a != "" ==> a[|a| - 1] != '-')
    ensures FindDashes(a + "--" + b) == Some(|a|)
  {
    var s := a + "--" + b;
    if a == "" {
      assert s[0] == '-' && s[1] == '-';
    } else {
      assert |a| >= 2 ==> !(a[0] == '-' && a[1] == '-');
      assert forall i | 0 <= i < |a| - 1 :: a[1..][i] == a[i + 1];
      DashesAfter(a[1..], b);
      assert s[1..] == a[1..] + "--" + b;
    }
  }

  lemma ParsesJoined(a: string, b: string)
    requires Plain(a) && Plain(b)
    ensures ParseDm(a + "--" + b) == Some((a, b))
  {
    DashesAfter(a, b);
    var s := a + "--" + b;
    assert s[..|a|] == a && s[|a| + 2..] == b;
  }

  predicate DashesAt(s: string, i: nat) {
    i + 2 <= |s| && s[i] == '-' && s[i + 1] == '-'
  }

  /** Any name splits at its first double hyphen, if there is something on both sides. */
  lemma ParseDmExactly(stem: string, first: string, second: string)
    ensures ParseDm(stem) == Some((first, second))
      <==> first != "" && second != "" && stem == first + "--" + second && forall i: nat | i < |first| :: !DashesAt(stem, i)
  {
    FindDashesBound(stem);
    forall i: nat ensures FindDashes(stem) == Some(i) <==> DashesAt(stem, i) && forall j: nat | j < i :: !DashesAt(stem, j) {
      FirstDashes(stem, i);
    }
    hide FindDashes;
    var i := FindDashes(stem);
    if ParseDm(stem) == Some((first, second)) {
      assert stem == stem[..i.value] + "--" + stem[i.value + 2..];
    }
    if first != "" && second != "" && stem == first + "--" + second {
      assert DashesAt(stem, |first|);
      assert stem[..|first|] == first && stem[|first| + 2..] == second;
    }
  }

  lemma {:induction false} FirstDashes(s: string, i: nat)
    ensures FindDashes(s) == Some(i) <==> DashesAt(s, i) && forall j: nat | j < i :: !DashesAt(s, j)
  {
    if |s| >= 2 && !DashesAt(s, 0) && i > 0 {
      var t := s[1..];
      FirstDashes(t, i - 1);
      assert forall j: nat :: DashesAt(s, j + 1) <==> DashesAt(t, j);
      assert DashesAt(s, i) <==> DashesAt(t, i - 1);
      if forall j: nat | j < i - 1 :: !DashesAt(t, j) {
        forall j: nat | j < i ensures !DashesAt(s, j) {
          if j > 0 {
            assert !DashesAt(t, j - 1);
          }
        }
      }
    }
  }

  /** A DM stem does not depend on the order of the two handlers, parses back to them in sorted order,
      and no other pair of handlers has it. */
  lemma DmStems(a: string, b: string, c: string, d: string)
    requires ValidAuthor(a) && ValidAuthor(b) && ValidAuthor(c) && ValidAuthor(d)
    ensures DmStem(a, b) == DmStem(b, a)
    ensures a == b || Less(a, b) ==> DmStem(a, b) == a + "--" + b
    ensures ParseDm(DmStem(a, b)) == Some(if Precedes(a, b) then (a, b) else (b, a))
    ensures DmStem(a, b) == DmStem(c, d) <==> (a == c && b == d) || (a == d && b == c)
  {
    ValidIsPlain(a);
    ValidIsPlain(b);
    ValidIsPlain(c);
    ValidIsPlain(d);
    hide ValidAuthor, Plain, Less, ParseDm;
    LessTotal(a, b);
    LessTotal(c, d);
    ParsesJoined(a, b);
    ParsesJoined(b, a);
    ParsesJoined(c, d);
    ParsesJoined(d, c);
  }
}
