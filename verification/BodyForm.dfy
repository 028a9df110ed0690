/** The normal form of message bodies: when writing and reading a body returns it unchanged,
    and when a second round changes nothing more. */
module BodyForm {
  import opened Results
  import opened Text
  import opened Thread
  import opened ThreadFraming

  predicate EndsNewline(b: string) {
    b != "" && b[|b| - 1] == '\n'
  }

  /** No final newline, no line ending in a carriage return, no continuation line that starts
      like an escaped one. */
  predicate PlainBody(b: string) {
    var ps := Split(b);
    && !EndsNewline(b)
    && (forall i | 0 <= i < |ps| :: !EndsCr(ps[i]))
    && (forall i | 1 <= i < |ps| :: !(" [L" <= ps[i]))
  }

  lemma ChompShortens(l: string)
    ensures if EndsCr(l) then |Chomp2(l)| < |l| && |ChompCr(l)| < |l| else Chomp2(l) == ChompCr(l) == l
  {
  }

  lemma UnescapeShortens(l: string)
    ensures if " [L" <= l then |Unescape(l)| < |l| else Unescape(l) == l
    ensures Unescape(l) == "" <==> l == ""
    ensures !(" [L" <= Unescape(l))
    ensures EndsCr(Unescape(l)) <==> EndsCr(l)
  {
    if " [L" <= l {
      assert l[1] == '[' && Unescape(l)[0] == '[';
      assert Unescape(l)[|l| - 2] == l[|l| - 1];
    }
  }

  /** A written line comes back as it was exactly when it is plain. */
  lemma LineFixed(p: string, terminated: bool, first: bool)
    ensures var c := Chomp2(if terminated then ChompCr(p) else p);
      (if first then c else Unescape(c)) == p <==> !EndsCr(p) && (first || !(" [L" <= p))
  {
    hide Chomp2, ChompCr, Unescape;
    var d := if terminated then ChompCr(p) else p;
    ChompShortens(p);
    ChompShortens(d);
    UnescapeShortens(Chomp2(d));
  }

  lemma NormalLinesNewlineFree(body: string)
    ensures NewlineFree(NormalLines(body))
  {
    LinesNewlineFree(body);
    var ls := BodyLines(body);
    assert NoNewline(ls[0]);
    forall i | 0 <= i < |ls| - 1
      ensures NoNewline(Unescape(Chomp2(ls[1..][i])))
    {
      assert NoNewline(ls[i + 1]);
    }
  }

  lemma NormalLinesAt(body: string, i: nat)
    requires i < |BodyLines(body)|
    ensures |NormalLines(body)| == |BodyLines(body)|
    ensures NormalLines(body)[i]
         == var c := Chomp2(BodyLines(body)[i]); if i == 0 then c else Unescape(c)
  {
    hide BodyLines, Chomp2, Unescape;
  }

  lemma BodyLinesOpen(body: string)
    requires !Terminated(body)
    ensures |BodyLines(body)| == |Split(body)|
    ensures forall i | 0 <= i < |Split(body)| ::
      BodyLines(body)[i] == if i < |Split(body)| - 1 then ChompCr(Split(body)[i]) else Split(body)[i]
  {
    TerminatedSplit(body);
    hide Split, ChompCr;
  }

  lemma BodyLinesTerminated(body: string)
    requires EndsNewline(body)
    ensures BodyLines(body) == ChompEach(Init(Split(body))) && |Split(body)| >= 2
  {
    TerminatedSplit(body);
    if |Split(body)| == 1 {
      JoinSplit(body);
    }
    hide Split, ChompCr;
  }

  lemma OpenBodyFixed(b: string, i: nat)
    requires !Terminated(b) && i < |Split(b)|
    ensures |NormalLines(b)| == |Split(b)|
    ensures var p := Split(b)[i];
      NormalLines(b)[i] == p <==> !EndsCr(p) && (i == 0 || !(" [L" <= p))
  {
    hide Split, NormalLines, BodyLines, Chomp2, ChompCr, Unescape, EndsCr, Terminated;
    BodyLinesOpen(b);
    NormalLinesAt(b, i);
    LineFixed(Split(b)[i], i < |Split(b)| - 1, i == 0);
  }

  lemma ReadBack(b: string)
    ensures NormalBody(b) == b <==> NormalLines(b) == Split(b)
  {
    hide Split, NormalLines;
    JoinSplit(b);
    NormalLinesNewlineFree(b);
    SplitJoin(NormalLines(b));
  }

  /** Writing a body and reading it back is the identity exactly on plain bodies. */
  lemma NormalIsIdentity(b: string)
    ensures NormalBody(b) == b <==> PlainBody(b)
  {
    ReadBack(b);
    if b == "" {
      assert BodyLines(b) == [""] && NormalLines(b) == [""];
    } else if EndsNewline(b) {
      BodyLinesTerminated(b);
      NormalLinesAt(b, 0);
      assert |NormalLines(b)| == |Split(b)| - 1;
    } else {
      OpenBodyIdentity(b);
    }
  }

  lemma OpenBodyIdentity(b: string)
    requires !Terminated(b)
    ensures NormalLines(b) == Split(b) <==> PlainBody(b)
  {
    hide Split, NormalLines, EndsCr;
    var ps, nl := Split(b), NormalLines(b);
    forall i | 0 <= i < |ps|
      ensures |nl| == |ps|
      ensures nl[i] == ps[i] <==> !EndsCr(ps[i]) && (i == 0 || !(" [L" <= ps[i]))
    {
      OpenBodyFixed(b, i);
    }
    OpenBodyFixed(b, 0);
  }

  /** What has to hold of a body's lines for one round to reach the normal form: a last line with
      text, and at most two carriage returns to take off any line. */
  predicate Settled(b: string) {
    var ls := BodyLines(b);
    && (|ls| == 1 || Chomp2(Last(ls)) != "")
    && (forall i | 0 <= i < |ls| :: !EndsCr(Chomp2(ls[i])))
  }

  lemma NormalEndsNewline(b: string)
    ensures EndsNewline(NormalBody(b)) <==> |NormalLines(b)| > 1 && Last(NormalLines(b)) == ""
  {
    var c, nl := NormalBody(b), NormalLines(b);
    NormalLinesNewlineFree(b);
    SplitJoin(nl);
    TerminatedSplit(c);
    hide NormalLines;
    if |nl| > 1 {
      assert c != "" by {
        assert c == nl[0] + "\n" + Join(nl[1..]);
      }
    }
  }

  lemma NormalLineFacts(b: string, i: nat)
    requires i < |BodyLines(b)|
    ensures |NormalLines(b)| == |BodyLines(b)|
    ensures EndsCr(NormalLines(b)[i]) <==> EndsCr(Chomp2(BodyLines(b)[i]))
    ensures NormalLines(b)[i] == "" <==> Chomp2(BodyLines(b)[i]) == ""
    ensures i > 0 ==> !(" [L" <= NormalLines(b)[i])
  {
    hide NormalLines, BodyLines, Chomp2, Unescape, EndsCr;
    NormalLinesAt(b, i);
    UnescapeShortens(Chomp2(BodyLines(b)[i]));
  }

  lemma NormalPieces(b: string)
    ensures Split(NormalBody(b)) == NormalLines(b)
  {
    hide NormalLines, Split;
    NormalLinesNewlineFree(b);
    SplitJoin(NormalLines(b));
  }

  /** A second round changes nothing exactly when the body was settled. */
  lemma NormalSettles(b: string)
    ensures NormalBody(NormalBody(b)) == NormalBody(b) <==> Settled(b)
  {
    hide NormalLines, BodyLines, Chomp2, Split, NormalBody, EndsCr, EndsNewline;
    var nl, ls := NormalLines(b), BodyLines(b);
    NormalIsIdentity(NormalBody(b));
    NormalEndsNewline(b);
    NormalPieces(b);
    forall i | 0 <= i < |ls|
      ensures |nl| == |ls|
      ensures EndsCr(nl[i]) <==> EndsCr(Chomp2(ls[i]))
      ensures nl[i] == "" <==> Chomp2(ls[i]) == ""
      ensures i > 0 ==> !(" [L" <= nl[i])
    {
      NormalLineFacts(b, i);
    }
    NormalLineFacts(b, 0);
  }

  predicate CrFree(b: string) {
    forall i | 0 <= i < |b| :: b[i] != '\r'
  }

  predicate EndsBlankLine(b: string) {
    |b| >= 2 && b[|b| - 1] == '\n' && b[|b| - 2] == '\n'
  }

  lemma {:induction false} CrFreePieces(b: string)
    requires CrFree(b)
    ensures forall i | 0 <= i < |Split(b)| :: CrFree(Split(b)[i])
  {
    if b != "" {
      CrFreePieces(b[1..]);
    }
  }

  lemma CrFreeLines(b: string, i: nat)
    requires CrFree(b) && b != "" && i < |BodyLines(b)|
    ensures BodyLines(b)[i] == Split(b)[i] && !EndsCr(BodyLines(b)[i])
    ensures |BodyLines(b)| == if Terminated(b) then |Split(b)| - 1 else |Split(b)|
  {
    CrFreePieces(b);
    if Terminated(b) {
      BodyLinesTerminated(b);
    } else {
      BodyLinesOpen(b);
    }
    hide BodyLines, Split;
  }

  lemma DropNewline(a: string)
    ensures Split(a + "\n") == Split(a) + [""]
  {
    SplitConcat(a, "\n");
    assert "\n"[1..] == "";
    assert Last(Split(a)) + "" == Last(Split(a));
  }

  /** Without carriage returns the boundary is two final newlines. */
  lemma CrFreeSettles(b: string)
    requires CrFree(b) && HasFirstLine(b)
    ensures Settled(b) <==> !EndsBlankLine(b)
  {
    assert b != "";
    hide BodyLines, Split, Terminated;
    var ls := BodyLines(b);
    forall i | 0 <= i < |ls| ensures !EndsCr(ls[i]) {
      CrFreeLines(b, i);
    }
    CrFreeLines(b, |ls| - 1);
    TerminatedSplit(b);
    if b[|b| - 1] == '\n' {
      BlankLineEnds(b);
    } else {
      NotTerminated(b);
    }
  }

  lemma NotTerminated(b: string)
    requires b != "" && b[|b| - 1] != '\n'
    ensures !Terminated(b)
  {
  }

  lemma DroppedLines(a: string)
    requires CrFree(a + "\n")
    ensures var ls := BodyLines(a + "\n");
      |ls| == |Split(a)| && ls[0] == Split(a)[0] && Last(ls) == Last(Split(a))
  {
    var b := a + "\n";
    assert b[|a|] == '\n';
    DropNewline(a);
    assert Terminated(b);
    hide Split, BodyLines, CrFree;
    CrFreeLines(b, 0);
    CrFreeLines(b, |BodyLines(b)| - 1);
  }

  lemma OnePiece(a: string)
    ensures |Split(a)| == 1 ==> Split(a)[0] == a
  {
    JoinSplit(a);
    hide Split;
  }

  lemma EmptySplit()
    ensures Split("") == [""]
  {
  }

  lemma BlankPieces(a: string, ls: seq<string>)
    requires |ls| == |Split(a)| && ls[0] == Split(a)[0] && Last(ls) == Last(Split(a)) && ls[0] != ""
    ensures EndsBlankLine(a + "\n") <==> |ls| > 1 && Last(ls) == ""
  {
    hide Split;
    TerminatedSplit(a);
    OnePiece(a);
    EmptySplit();
    assert (a + "\n")[|a|] == '\n' && (a != "" ==> (a + "\n")[|a| - 1] == a[|a| - 1]);
  }

  lemma ChompNothing()
    ensures Chomp2("") == ""
  {
  }

  lemma BlankLineEnds(b: string)
    requires EndsNewline(b) && CrFree(b) && HasFirstLine(b)
    ensures Terminated(b)
    ensures EndsBlankLine(b) <==> |BodyLines(b)| > 1 && Last(BodyLines(b)) == ""
  {
    hide Split, BodyLines, CrFree, EndsBlankLine, Chomp2;
    var a := b[..|b| - 1];
    assert b == a + "\n";
    ChompNothing();
    DroppedLines(a);
    BlankPieces(a, BodyLines(b));
  }
}
