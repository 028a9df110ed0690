/** Text primitives the thread codec is built from: `\n` splitting, the line view of Rust's
    `str::lines`, the `"\r\n"` to `"\n"` rewrite, and decimal numerals. */
module Text {

  /** The pieces of `s` between its newlines: one more piece than there are newlines. */
  function Split(s: string): (ps: seq<string>)
    ensures |ps| >= 1
    ensures NewlineFree(ps)
  {
    if s == "" then [""] else PushFront(s[0], Split(s[1..]))
  }

  function PushFront(c: char, ps: seq<string>): (r: seq<string>)
    requires |ps| >= 1
    ensures |r| >= 1
    ensures NewlineFree(ps) ==> NewlineFree(r)
  {
    if c == '\n' then [""] + ps else ps[0 := [c] + ps[0]]
  }

  predicate NoNewline(l: string) {
    forall i | 0 <= i < |l| :: l[i] != '\n'
  }

  predicate NewlineFree(ls: seq<string>) {
    forall i | 0 <= i < |ls| :: NoNewline(ls[i])
  }

  function Join(ps: seq<string>): string
    requires |ps| >= 1
  {
    if |ps| == 1 then ps[0] else ps[0] + "\n" + Join(ps[1..])
  }

  /** Every line followed by its newline. */
  function Unlines(ls: seq<string>): string {
    if ls == [] then "" else ls[0] + "\n" + Unlines(ls[1..])
  }

  lemma {:induction false} JoinSplit(s: string)
    ensures Join(Split(s)) == s
  {
    if s != "" {
      JoinSplit(s[1..]);
      JoinPushFront(s[0], Split(s[1..]));
      assert s == [s[0]] + s[1..];
    }
  }

  lemma FirstReplaced<T>(s: seq<T>, x: T)
    requires |s| >= 1
    ensures s[0 := x] == [x] + s[1..] && s[0 := s[0]] == s
    ensures |s| == 1 ==> s[0 := x] == [x]
  {
  }

  lemma JoinOne(p: string)
    ensures Join([p]) == p
  {
  }

  lemma JoinCons(p: string, ps: seq<string>)
    requires |ps| >= 1
    ensures Join([p] + ps) == p + "\n" + Join(ps)
  {
    assert ([p] + ps)[1..] == ps;
  }

  lemma Prepend(c: char, p: string, rest: string)
    ensures [c] + p + "\n" + rest == [c] + (p + "\n" + rest)
    ensures "" + "\n" + rest == ['\n'] + rest
  {
  }

  lemma JoinPushFront(c: char, ps: seq<string>)
    requires |ps| >= 1
    ensures Join(PushFront(c, ps)) == [c] + Join(ps)
  {
    hide Join, NewlineFree;
    if c == '\n' {
      JoinCons("", ps);
      Prepend(c, "", Join(ps));
    } else {
      var p, rest := ps[0], ps[1..];
      FirstReplaced(ps, [c] + p);
      FirstReplaced(ps, p);
      if |ps| == 1 {
        JoinOne(p);
        JoinOne([c] + p);
      } else {
        JoinCons(p, rest);
        JoinCons([c] + p, rest);
        Prepend(c, p, Join(rest));
      }
    }
  }

  /** The last piece of `a` and the first piece of `b` fuse; every other piece is kept. */
  function Glue(a: seq<string>, b: seq<string>): seq<string>
    requires |a| >= 1 && |b| >= 1
  {
    a[..|a| - 1] + [a[|a| - 1] + b[0]] + b[1..]
  }

  lemma GluePushFront(c: char, a: seq<string>, b: seq<string>)
    requires |a| >= 1 && |b| >= 1
    ensures PushFront(c, Glue(a, b)) == Glue(PushFront(c, a), b)
  {
    if c != '\n' && |a| == 1 {
      assert [c] + (a[0] + b[0]) == ([c] + a[0]) + b[0];
    }
  }

  lemma {:induction false} SplitConcat(a: string, b: string)
    ensures Split(a + b) == Glue(Split(a), Split(b))
  {
    if a == "" {
      assert a + b == b;
      assert "" + Split(b)[0] == Split(b)[0];
    } else {
      SplitConcat(a[1..], b);
      assert (a + b)[1..] == a[1..] + b;
      GluePushFront(a[0], Split(a[1..]), Split(b));
    }
  }

  lemma {:induction false} SplitPlain(p: string)
    requires NoNewline(p)
    ensures Split(p) == [p]
  {
    if p != "" {
      SplitPlain(p[1..]);
      assert p == [p[0]] + p[1..];
    }
  }

  /** A newline-free line and its newline put one piece in front. */
  lemma SplitLine(l: string, rest: string)
    requires NoNewline(l)
    ensures Split(l + "\n" + rest) == [l] + Split(rest)
  {
    SplitPlain(l);
    assert ("\n" + rest)[1..] == rest;
    SplitConcat(l, "\n" + rest);
    assert l + ("\n" + rest) == l + "\n" + rest;
    assert l + "" == l;
  }

  lemma {:induction false} SplitJoin(ps: seq<string>)
    requires |ps| >= 1 && NewlineFree(ps)
    ensures Split(Join(ps)) == ps
  {
    if |ps| == 1 {
      SplitPlain(ps[0]);
    } else {
      SplitJoin(ps[1..]);
      SplitLine(ps[0], Join(ps[1..]));
    }
  }

  lemma {:induction false} SplitUnlines(ls: seq<string>)
    requires NewlineFree(ls)
    ensures Split(Unlines(ls)) == ls + [""]
  {
    if ls != [] {
      SplitUnlines(ls[1..]);
      SplitLine(ls[0], Unlines(ls[1..]));
    }
  }

  lemma {:induction false} UnlinesSnoc(ls: seq<string>, l: string)
    ensures Unlines(ls + [l]) == Unlines(ls) + l + "\n"
  {
    if ls == [] {
      assert [l][1..] == [];
    } else {
      UnlinesSnoc(ls[1..], l);
      assert (ls + [l])[1..] == ls[1..] + [l];
    }
  }

  lemma {:induction false} JoinSnoc(ps: seq<string>, p: string)
    requires |ps| >= 1
    ensures Join(ps + [p]) == Join(ps) + "\n" + p
  {
    if |ps| == 1 {
      assert (ps + [p])[1..] == [p];
    } else {
      JoinSnoc(ps[1..], p);
      assert (ps + [p])[1..] == ps[1..] + [p];
    }
  }

  // ----- carriage returns and the two line views

  predicate EndsCr(l: string) {
    l != "" && l[|l| - 1] == '\r'
  }

  function ChompCr(l: string): (r: string)
    ensures NoNewline(l) ==> NoNewline(r)
  {
    if EndsCr(l) then l[..|l| - 1] else l
  }

  function Chomp2(l: string): (r: string)
    ensures NoNewline(l) ==> NoNewline(r)
  {
    ChompCr(ChompCr(l))
  }

  function ChompEach(ls: seq<string>): (r: seq<string>)
    ensures |r| == |ls|
  {
    seq(|ls|, i requires 0 <= i < |ls| => ChompCr(ls[i]))
  }

  function Chomp2Each(ls: seq<string>): (r: seq<string>)
    ensures |r| == |ls|
  {
    seq(|ls|, i requires 0 <= i < |ls| => Chomp2(ls[i]))
  }

  function Init<T>(s: seq<T>): seq<T>
    requires |s| >= 1
  {
    s[..|s| - 1]
  }

  function Last<T>(s: seq<T>): T
    requires |s| >= 1
  {
    s[|s| - 1]
  }

  /** A final piece is a line of its own only when it holds text. */
  function Tail(p: string): seq<string> {
    if p == "" then [] else [p]
  }

  /** Rust's `str::lines`: newline-terminated pieces lose one carriage return, an unterminated
      final piece is taken as it is, and an empty final piece is no line at all. */
  function Lines(s: string): (ls: seq<string>)
  {
    var ps := Split(s);
    ChompEach(Init(ps)) + Tail(Last(ps))
  }

  /** `s.replace("\r\n", "\n")`. */
  function ReplaceCrLf(s: string): string {
    if |s| < 2 then s
    else if s[0] == '\r' && s[1] == '\n' then "\n" + ReplaceCrLf(s[2..])
    else [s[0]] + ReplaceCrLf(s[1..])
  }

  /** One carriage return off every terminated piece. */
  function ChompInit(ps: seq<string>): (r: seq<string>)
    requires |ps| >= 1
    ensures |r| == |ps|
  {
    ChompEach(Init(ps)) + [Last(ps)]
  }

  lemma ChompPushFront(c: char, ps: seq<string>)
    requires |ps| >= 1
    requires !(c == '\r' && |ps| > 1 && ps[0] == "")
    ensures ChompInit(PushFront(c, ps)) == PushFront(c, ChompInit(ps))
  {
    if c != '\n' && ps[0] != "" {
      assert ([c] + ps[0])[|ps[0]|] == ps[0][|ps[0]| - 1];
      assert ChompCr([c] + ps[0]) == [c] + ChompCr(ps[0]);
    }
  }

  lemma ChompCrLf(ps: seq<string>)
    requires |ps| >= 1
    ensures ChompInit(PushFront('\r', PushFront('\n', ps))) == PushFront('\n', ChompInit(ps))
  {
    hide NewlineFree;
    FirstReplaced([""] + ps, ['\r'] + "");
    ChompOneCr();
    ChompInitCons("\r", ps);
    hide ChompInit, ChompCr;
  }

  lemma ChompOneCr()
    ensures ChompCr("\r") == "" && ['\r'] + "" == "\r"
  {
  }

  lemma ChompInitCons(p: string, ps: seq<string>)
    requires |ps| >= 1
    ensures ChompInit([p] + ps) == [ChompCr(p)] + ChompInit(ps)
  {
    hide ChompCr;
    assert Init([p] + ps) == [p] + Init(ps);
    assert ChompEach([p] + Init(ps)) == [ChompCr(p)] + ChompEach(Init(ps));
  }

  /** At the level of pieces the rewrite takes one carriage return off every terminated line. */
  lemma {:induction false} SplitReplace(s: string)
    ensures Split(ReplaceCrLf(s)) == ChompInit(Split(s))
  {
    if |s| < 2 {
      assert |s| == 1 ==> s[1..] == "";
    } else if s[0] == '\r' && s[1] == '\n' {
      SplitReplace(s[2..]);
      assert s[1..][1..] == s[2..];
      assert ("\n" + ReplaceCrLf(s[2..]))[1..] == ReplaceCrLf(s[2..]);
      ChompCrLf(Split(s[2..]));
    } else {
      SplitReplace(s[1..]);
      assert ([s[0]] + ReplaceCrLf(s[1..]))[1..] == ReplaceCrLf(s[1..]);
      ChompPushFront(s[0], Split(s[1..]));
    }
  }

  /** The lines `parse_thread` walks: the rewrite first, then `lines`. */
  function FileLines(s: string): seq<string> {
    Lines(ReplaceCrLf(s))
  }

  /** `FileLines` read off the pieces. */
  function PieceLines(ps: seq<string>): seq<string>
    requires |ps| >= 1
  {
    Chomp2Each(Init(ps)) + Tail(Last(ps))
  }

  lemma ChompInitTwice(ps: seq<string>)
    requires |ps| >= 1
    ensures ChompEach(Init(ChompInit(ps))) == Chomp2Each(Init(ps))
    ensures Last(ChompInit(ps)) == Last(ps)
  {
  }

  lemma FileLinesForm(s: string)
    ensures FileLines(s) == PieceLines(Split(s))
  {
    SplitReplace(s);
    ChompInitTwice(Split(s));
  }

  predicate Terminated(s: string) {
    s == "" || s[|s| - 1] == '\n'
  }

  lemma {:induction false} TerminatedSplit(s: string)
    ensures Terminated(s) <==> Last(Split(s)) == ""
  {
    if s != "" {
      SplitConcat(s[..|s| - 1], [s[|s| - 1]]);
      assert s == s[..|s| - 1] + [s[|s| - 1]];
      var c := s[|s| - 1];
      assert [c][1..] == "";
      assert Split([c]) == PushFront(c, [""]);
    }
  }

  lemma GlueTerminated(a: seq<string>, b: seq<string>)
    requires |a| >= 1 && |b| >= 1 && Last(a) == ""
    ensures PieceLines(Glue(a, b)) == PieceLines(a) + PieceLines(b)
  {
    assert "" + b[0] == b[0];
    assert Glue(a, b) == Init(a) + b;
    assert Chomp2Each(Init(Glue(a, b))) == Chomp2Each(Init(a)) + Chomp2Each(Init(b));
  }

  /** A terminated text contributes its own lines, whatever follows it. */
  lemma FileLinesConcat(a: string, b: string)
    requires Terminated(a)
    ensures FileLines(a + b) == FileLines(a) + FileLines(b)
  {
    SplitConcat(a, b);
    TerminatedSplit(a);
    FileLinesForm(a);
    FileLinesForm(b);
    FileLinesForm(a + b);
    GlueTerminated(Split(a), Split(b));
  }

  lemma FileLinesUnlines(ls: seq<string>)
    requires NewlineFree(ls)
    ensures FileLines(Unlines(ls)) == Chomp2Each(ls)
    ensures Terminated(Unlines(ls))
  {
    SplitUnlines(ls);
    FileLinesForm(Unlines(ls));
    TerminatedSplit(Unlines(ls));
    assert Init(ls + [""]) == ls;
  }

  // ----- decimal numerals

  predicate Digits(s: string) {
    forall i | 0 <= i < |s| :: '0' <= s[i] <= '9'
  }

  function Digit(d: nat): char
    requires d < 10
  {
    '0' + d as char
  }

  function Dec(n: nat): (s: string)
    ensures |s| >= 1
    ensures Digits(s)
  {
    if n < 10 then [Digit(n)] else Dec(n / 10) + [Digit(n % 10)]
  }

  function DecValue(s: string): nat
    requires Digits(s)
  {
    if s == "" then 0 else 10 * DecValue(s[..|s| - 1]) + (s[|s| - 1] - '0') as nat
  }

  function Zeros(k: nat): (s: string)
    ensures |s| == k
    ensures Digits(s)
  {
    seq(k, _ => '0')
  }

  /** `{:0>width$}`: zero-fill on the left, never truncate. */
  function Pad(n: nat, width: nat): (s: string)
    ensures |s| >= width
    ensures Digits(s)
  {
    var d := Dec(n);
    if |d| >= width then d else Zeros(width - |d|) + d
  }

  lemma {:induction false} ZeroFill(k: nat, d: string)
    requires Digits(d)
    ensures DecValue(Zeros(k) + d) == DecValue(d)
  {
    if d != "" {
      var s := Zeros(k) + d;
      assert s[..|s| - 1] == Zeros(k) + d[..|d| - 1];
      ZeroFill(k, d[..|d| - 1]);
    } else if k > 0 {
      assert Zeros(k) + d == Zeros(k);
      assert Zeros(k)[..k - 1] == Zeros(k - 1) + "";
      ZeroFill(k - 1, "");
    }
  }

  lemma {:induction false} DecRoundTrip(n: nat)
    ensures DecValue(Dec(n)) == n
  {
    if n >= 10 {
      DecRoundTrip(n / 10);
      assert Dec(n)[..|Dec(n)| - 1] == Dec(n / 10);
    }
  }

  lemma PadRoundTrip(n: nat, width: nat)
    ensures DecValue(Pad(n, width)) == n
  {
    hide Dec, DecValue, Zeros;
    DecRoundTrip(n);
    var d := Dec(n);
    if |d| < width {
      ZeroFill(width - |d|, d);
    }
  }
}
